/** The aggregation loop of `RuntimeAnalyticsService._compute`: mutable aggregates filled
    while walking the snapshots, proved to hold the window totals of `Analytics`. */
module AnalyticsService {
  import opened Prelude
  import opened Histogram
  import opened Analytics
  import Laws = AnalyticsLaws
  import QuantileLaws

  datatype CounterResponse = CounterResponse(
    delta: int, intervals: int, covered: real, rate: Option<real>, regressions: int)

  datatype HistogramResponse = HistogramResponse(
    observations: int, mean: Option<real>, p50: Option<real>, p95: Option<real>,
    intervals: int, covered: real, regressions: int, schemaChanges: int)

  datatype Report = Report(
    snapshotCount: nat,
    intervalCount: nat,
    resetBoundaries: nat,
    identityUnknown: nat,
    prompt: Option<CounterResponse>,
    generation: Option<CounterResponse>,
    histograms: map<string, HistogramResponse>)

  /** What a counter total is reported as; nothing when the window says nothing about it. */
  function CounterReport(c: Counter): Option<CounterResponse> {
    if c.intervals == 0 && c.regressions == 0 && c.delta == 0 then None else
      Some(CounterResponse(c.delta, c.intervals, c.covered,
                           if c.covered > 0.0 && c.intervals > 0 then Some(c.delta as real / c.covered) else None,
                           c.regressions))
  }

  /** What a merged histogram is reported as. */
  function HistogramReport(order: Listing, m: Merged): Option<HistogramResponse> {
    if m.intervals == 0 && m.regressions == 0 && m.schemaChanges == 0 then None else
      var ordered := OrderedKeys(order, m.buckets.Keys);
      Some(HistogramResponse(m.count,
                             if m.count > 0 then Some(m.sum / m.count as real) else None,
                             Quantile(0.5, m.buckets, ordered, m.count),
                             Quantile(0.95, m.buckets, ordered, m.count),
                             m.intervals, m.covered, m.regressions, m.schemaChanges))
  }

  class CounterAgg {
    var delta: int
    var intervalCount: int
    var coveredSeconds: real
    var regressionCount: int

    function View(): Counter
      reads this
    {
      Counter(delta, intervalCount, coveredSeconds, regressionCount)
    }

    constructor ()
      ensures View() == EMPTY_COUNTER
    {
      delta, intervalCount, coveredSeconds, regressionCount := 0, 0, 0.0, 0;
    }

    method Accumulate(prev: Option<int>, curr: Option<int>, duration: real)
      modifies this
      ensures View() == Accumulated(old(View()), prev, curr, duration)
    {
      if prev == None || curr == None {
        return;
      }
      if curr.value < prev.value {
        regressionCount := regressionCount + 1;
        return;
      }
      delta := delta + curr.value - prev.value;
      intervalCount := intervalCount + 1;
      coveredSeconds := coveredSeconds + duration;
    }

    method ToResponse() returns (r: Option<CounterResponse>)
      ensures r == CounterReport(View())
    {
      if intervalCount == 0 && regressionCount == 0 && delta == 0 {
        return None;
      }
      var rate: Option<real> := None;
      if coveredSeconds > 0.0 && intervalCount > 0 {
        rate := Some(delta as real / coveredSeconds);
      }
      return Some(CounterResponse(delta, intervalCount, coveredSeconds, rate, regressionCount));
    }
  }

  class HistoAgg {
    var buckets: map<Le, int>
    var count: int
    var sumValue: real
    var intervalCount: int
    var coveredSeconds: real
    var regressionCount: int
    var schemaChangeCount: int
    var schemaLes: Option<set<Le>>

    function View(): Merged
      reads this
    {
      Merged(schemaLes, buckets, count, sumValue, intervalCount, coveredSeconds, regressionCount, schemaChangeCount)
    }

    constructor ()
      ensures View() == EMPTY_MERGED
    {
      buckets, count, sumValue, intervalCount, coveredSeconds := map[], 0, 0.0, 0, 0.0;
      regressionCount, schemaChangeCount, schemaLes := 0, 0, None;
    }

    /** The body of the loop over histogram keys, for one pair of scrapes. */
    method Absorb(order: Listing, prev: Scrape, curr: Scrape, duration: real)
      modifies this
      ensures View() == Absorbed(order, old(View()), prev, curr, duration)
    {
      hide HistogramDelta, ListsKeys;
      var outcome := HistogramDelta(order, prev, curr);
      if outcome.Err? && outcome.error.BucketSchemaChange? {
        schemaChangeCount := schemaChangeCount + 1;
        return;
      }
      if outcome.Err? && (outcome.error.HistogramRegression? || outcome.error.MissingInf?) {
        if outcome.error.HistogramRegression? {
          regressionCount := regressionCount + 1;
        }
        return;
      }
      assert outcome.Ok?;
      var delta := outcome.value;
      if schemaLes == None {
        schemaLes := Some(delta.buckets.Keys);
      } else if schemaLes.value != delta.buckets.Keys {
        schemaChangeCount := schemaChangeCount + 1;
        return;
      }
      AddAll(order, delta.buckets);
      count := count + delta.count;
      sumValue := sumValue + delta.sum;
      intervalCount := intervalCount + 1;
      coveredSeconds := coveredSeconds + duration;
    }

    method AddAll(order: Listing, more: map<Le, int>)
      modifies this`buckets
      ensures buckets == AddBuckets(old(buckets), more)
    {
      var les := order(more.Keys);
      assert Enumerates(les, more.Keys);
      hide ListsKeys;
      var k := 0;
      while k < |les|
        invariant 0 <= k <= |les|
        invariant forall x :: x in buckets <==> x in old(buckets) || x in les[..k]
        invariant forall x :: x in buckets ==> buckets[x] == At(old(buckets), x) + if x in les[..k] then more[x] else 0
      {
        var le := les[k];
        assert le !in les[..k];
        assert les[..k + 1] == les[..k] + [le];
        buckets := buckets[le := At(buckets, le) + more[le]];
        k := k + 1;
      }
      assert les[..k] == les;
    }

    method ToResponse(order: Listing) returns (r: Option<HistogramResponse>)
      ensures r == HistogramReport(order, View())
    {
      hide Quantile;
      if intervalCount == 0 && regressionCount == 0 && schemaChangeCount == 0 {
        return None;
      }
      var les := order(buckets.Keys);
      assert Enumerates(les, buckets.Keys);
      var p50 := ClassicHistogramQuantile(0.5, buckets, les, count);
      var p95 := ClassicHistogramQuantile(0.95, buckets, les, count);
      var mean := if count > 0 then Some(sumValue / count as real) else None;
      return Some(HistogramResponse(count, mean, p50, p95, intervalCount, coveredSeconds, regressionCount, schemaChangeCount));
    }
  }

  /** The report of a window: how pairs were classified and what each aggregate reports. */
  ghost predicate Reports(order: Listing, rows: seq<Snapshot>, report: Report) {
    && report.snapshotCount == |rows|
    && report.intervalCount == (if |rows| == 0 then 0 else |rows| - 1)
    && report.resetBoundaries == |Laws.Restarts(rows, |rows|)|
    && report.identityUnknown == |Laws.Unknowns(rows, |rows|)|
    && report.prompt == CounterReport(CounterUpTo(Prompt, rows, |rows|))
    && report.generation == CounterReport(CounterUpTo(Generation, rows, |rows|))
    && (forall key :: key in HISTOGRAM_KEYS ==>
         var r := HistogramReport(order, MergedUpTo(order, key, rows, |rows|));
         if r.Some? then key in report.histograms && report.histograms[key] == r.value else key !in report.histograms)
    && (forall key :: key in report.histograms ==> key in HISTOGRAM_KEYS)
  }

  lemma KeysDistinct()
    ensures forall i, j :: 0 <= i < j < |HISTOGRAM_KEYS| ==> HISTOGRAM_KEYS[i] != HISTOGRAM_KEYS[j]
  {
    forall i, j | 0 <= i < j < |HISTOGRAM_KEYS| ensures HISTOGRAM_KEYS[i] != HISTOGRAM_KEYS[j] {
      assert HISTOGRAM_KEYS[i][0] != HISTOGRAM_KEYS[j][0] || |HISTOGRAM_KEYS[i]| != |HISTOGRAM_KEYS[j]|;
    }
  }

  method NewAggregates() returns (aggs: map<string, HistoAgg>)
    ensures fresh(aggs.Values)
    ensures forall key :: key in HISTOGRAM_KEYS <==> key in aggs
    ensures forall key :: key in aggs ==> aggs[key].View() == EMPTY_MERGED
    ensures forall a, b :: a in aggs && b in aggs && a != b ==> aggs[a] != aggs[b]
  {
    aggs := map[];
    var k := 0;
    while k < |HISTOGRAM_KEYS|
      invariant 0 <= k <= |HISTOGRAM_KEYS|
      invariant forall key :: key in aggs <==> key in HISTOGRAM_KEYS[..k]
      invariant forall key :: key in aggs ==> fresh(aggs[key]) && aggs[key].View() == EMPTY_MERGED
      invariant forall a, b :: a in aggs && b in aggs && a != b ==> aggs[a] != aggs[b]
    {
      var agg := new HistoAgg();
      aggs := aggs[HISTOGRAM_KEYS[k] := agg];
      k := k + 1;
    }
    assert HISTOGRAM_KEYS[..k] == HISTOGRAM_KEYS;
  }

  /** One same-instance pair: every histogram present in both snapshots is absorbed. */
  method AbsorbHistograms(order: Listing, aggs: map<string, HistoAgg>, prev: Snapshot, curr: Snapshot)
    requires forall key :: key in HISTOGRAM_KEYS <==> key in aggs
    requires forall a, b :: a in aggs && b in aggs && a != b ==> aggs[a] != aggs[b]
    requires KindOf(prev, curr) == SameInstance
    modifies aggs.Values
    ensures forall key :: key in aggs ==> aggs[key].View() == MergePair(order, key, old(aggs[key].View()), prev, curr)
  {
    hide *;
    KeysDistinct();
    var k := 0;
    while k < |HISTOGRAM_KEYS|
      invariant 0 <= k <= |HISTOGRAM_KEYS|
      invariant forall j :: 0 <= j < k ==>
                  aggs[HISTOGRAM_KEYS[j]].View() == MergePair(order, HISTOGRAM_KEYS[j], old(aggs[HISTOGRAM_KEYS[j]].View()), prev, curr)
      invariant forall j :: k <= j < |HISTOGRAM_KEYS| ==>
                  aggs[HISTOGRAM_KEYS[j]].View() == old(aggs[HISTOGRAM_KEYS[j]].View())
    {
      var key := HISTOGRAM_KEYS[k];
      PairAbsorbs(order, key, aggs[key].View(), prev, curr);
      if key in prev.histograms && key in curr.histograms {
        aggs[key].Absorb(order, prev.histograms[key], curr.histograms[key], curr.sampledAt - prev.sampledAt);
      }
      k := k + 1;
    }
  }

  lemma PairAbsorbs(order: Listing, key: string, agg: Merged, prev: Snapshot, curr: Snapshot)
    requires KindOf(prev, curr) == SameInstance
    ensures MergePair(order, key, agg, prev, curr) ==
              if key in prev.histograms && key in curr.histograms
              then Absorbed(order, agg, prev.histograms[key], curr.histograms[key], curr.sampledAt - prev.sampledAt) else agg
  {
    hide KindOf, Absorbed;
  }

  method Responses(order: Listing, aggs: map<string, HistoAgg>) returns (out: map<string, HistogramResponse>)
    requires forall key :: key in HISTOGRAM_KEYS <==> key in aggs
    ensures forall key :: key in HISTOGRAM_KEYS ==>
              var r := HistogramReport(order, aggs[key].View());
              if r.Some? then key in out && out[key] == r.value else key !in out
    ensures forall key :: key in out ==> key in HISTOGRAM_KEYS
  {
    hide HistogramReport, ListsKeys;
    KeysDistinct();
    out := map[];
    var k := 0;
    while k < |HISTOGRAM_KEYS|
      invariant 0 <= k <= |HISTOGRAM_KEYS|
      invariant forall j :: 0 <= j < k ==>
                  var r := HistogramReport(order, aggs[HISTOGRAM_KEYS[j]].View());
                  if r.Some? then HISTOGRAM_KEYS[j] in out && out[HISTOGRAM_KEYS[j]] == r.value else HISTOGRAM_KEYS[j] !in out
      invariant forall key :: key in out ==> key in HISTOGRAM_KEYS[..k]
    {
      var built := aggs[HISTOGRAM_KEYS[k]].ToResponse(order);
      if built != None {
        out := out[HISTOGRAM_KEYS[k] := built.value];
      }
      k := k + 1;
    }
  }

  /** `_compute`. */
  method Compute(order: Listing, rows: seq<Snapshot>) returns (report: Report)
    ensures Reports(order, rows, report)
  {
    hide KindOf, Accumulated, MergePair, CounterReport, HistogramReport, ListsKeys, Laws.Restarts, Laws.Unknowns, KindCount, CounterUpTo,
      MergedUpTo;
    var resetBoundaryCount, identityUnknownCount := 0, 0;
    var prompt := new CounterAgg();
    var generation := new CounterAgg();
    var histAggs := NewAggregates();
    NothingYet(order, rows, if rows == [] then 0 else 1);
    var i := 1;
    while i < |rows|
      invariant 1 <= i && (i <= |rows| || rows == [])
      invariant var n := if rows == [] then 0 else i;
                && resetBoundaryCount == KindCount(ResetBoundary, rows, n)
                && identityUnknownCount == KindCount(IdentityUnknown, rows, n)
                && prompt.View() == CounterUpTo(Prompt, rows, n)
                && generation.View() == CounterUpTo(Generation, rows, n)
                && (forall key :: key in histAggs ==> histAggs[key].View() == MergedUpTo(order, key, rows, n))
      invariant fresh(prompt) && fresh(generation) && prompt != generation && fresh(histAggs.Values)
    {
      var prev, curr := rows[i - 1], rows[i];
      var kind := KindOf(prev, curr);
      PairUnfolds(order, histAggs.Keys, rows, i + 1);
      if kind == IdentityUnknown {
        identityUnknownCount := identityUnknownCount + 1;
      } else if kind == ResetBoundary {
        resetBoundaryCount := resetBoundaryCount + 1;
      } else if kind == SameInstance {
        var duration := curr.sampledAt - prev.sampledAt;
        prompt.Accumulate(prev.promptTokens, curr.promptTokens, duration);
        generation.Accumulate(prev.generationTokens, curr.generationTokens, duration);
        AbsorbHistograms(order, histAggs, prev, curr);
      }
      i := i + 1;
    }
    Laws.BoundariesMean(rows, |rows|);
    var promptResponse := prompt.ToResponse();
    var generationResponse := generation.ToResponse();
    var histograms := Responses(order, histAggs);
    report := Report(|rows|, if |rows| == 0 then 0 else |rows| - 1, resetBoundaryCount, identityUnknownCount,
                     promptResponse, generationResponse, histograms);
  }

  lemma NothingYet(order: Listing, rows: seq<Snapshot>, n: nat)
    requires n < 2 && n <= |rows|
    ensures forall kind :: KindCount(kind, rows, n) == 0
    ensures forall field :: CounterUpTo(field, rows, n) == EMPTY_COUNTER
    ensures forall key :: MergedUpTo(order, key, rows, n) == EMPTY_MERGED
  {
  }

  lemma PairUnfolds(order: Listing, keys: set<string>, rows: seq<Snapshot>, n: nat)
    requires 2 <= n <= |rows|
    ensures forall kind :: KindCount(kind, rows, n) == KindCount(kind, rows, n - 1) + if KindOf(rows[n - 2], rows[n - 1]) == kind then 1 else 0
    ensures forall field :: CounterUpTo(field, rows, n) == CountPair(field, CounterUpTo(field, rows, n - 1), rows[n - 2], rows[n - 1])
    ensures forall key :: key in keys ==>
              MergedUpTo(order, key, rows, n) == MergePair(order, key, MergedUpTo(order, key, rows, n - 1), rows[n - 2], rows[n - 1])
    ensures KindOf(rows[n - 2], rows[n - 1]) != SameInstance ==>
              forall key :: key in keys ==> MergedUpTo(order, key, rows, n) == MergedUpTo(order, key, rows, n - 1)
  {
    hide KindOf, Absorbed, Accumulated;
  }

  lemma Quotient(a: real, b: real)
    requires b != 0.0
    ensures (a / b) * b == a
  {
  }

  /** What is reported of a counter: nothing only for a window that counted nothing and met no
      fall, and the rate is the one that gives the growth over the covered time. */
  lemma {:induction false} CounterReportMeans(field: TokenField, snaps: seq<Snapshot>)
    ensures var c, r := CounterUpTo(field, snaps, |snaps|), CounterReport(CounterUpTo(field, snaps, |snaps|));
            && (r.None? <==> c.intervals == 0 && c.regressions == 0)
            && (r.Some? ==> CounterShown(c, r.value))
  {
    hide CounterUpTo, CounterReport, CounterShown;
    CounterGrows(field, snaps, |snaps|);
    CounterIsShown(CounterUpTo(field, snaps, |snaps|));
  }

  lemma CounterIsShown(c: Counter)
    requires c.intervals >= 0 && c.regressions >= 0 && (c.intervals == 0 ==> c.delta == 0)
    requires c.intervals > 0 ==> c.covered > 0.0
    ensures CounterReport(c).None? <==> c.intervals == 0 && c.regressions == 0
    ensures CounterReport(c).Some? ==> CounterShown(c, CounterReport(c).value)
  {
    if c.covered > 0.0 {
      Quotient(c.delta as real, c.covered);
    }
  }

  predicate CounterShown(c: Counter, r: CounterResponse) {
    && r.delta == c.delta && r.intervals == c.intervals && r.covered == c.covered && r.regressions == c.regressions
    && (r.rate.Some? <==> c.intervals > 0)
    && (r.rate.Some? ==> c.covered > 0.0 && r.rate.value * c.covered == c.delta as real)
  }

  /** A window without intervals has grown by nothing, one with intervals covers time. */
  lemma {:induction false} CounterGrows(field: TokenField, snaps: seq<Snapshot>, n: nat)
    requires n <= |snaps|
    ensures var c := CounterUpTo(field, snaps, n);
            && c.intervals >= 0 && c.regressions >= 0 && (c.intervals == 0 ==> c.delta == 0 && c.covered == 0.0)
            && (c.intervals > 0 ==> c.covered > 0.0)
  {
    hide CountPair, Laws.Identified, Laws.SameIdentity;
    if n >= 2 {
      CounterGrows(field, snaps, n - 1);
      Laws.PairCounts(field, CounterUpTo(field, snaps, n - 1), snaps[n - 2], snaps[n - 1]);
    }
  }

  /** What is reported of a histogram: the mean gives the sum over all observations, p50
      divides the observations in halves and p95 at nineteen twentieths. */
  lemma HistogramReportMeans(order: Listing, m: Merged)
    ensures var r := HistogramReport(order, m);
            && (r.None? <==> m.intervals == 0 && m.regressions == 0 && m.schemaChanges == 0)
            && (r.Some? ==> HistogramShown(order, m, r.value))
  {
    hide Quantile, QuantileLaws.Divides, QuantileLaws.PositiveBounds, ListsKeys, Sorted, Enumerates;
    if m.count > 0 {
      Quotient(m.sum, m.count as real);
    }
    if QuantileLaws.PositiveBounds(m.buckets.Keys) {
      QuantileLaws.QuantileDivides(0.5, m.buckets, OrderedKeys(order, m.buckets.Keys), m.count);
      QuantileLaws.QuantileDivides(0.95, m.buckets, OrderedKeys(order, m.buckets.Keys), m.count);
    }
  }

  ghost predicate HistogramShown(order: Listing, m: Merged, r: HistogramResponse) {
    && r.observations == m.count && r.intervals == m.intervals && r.covered == m.covered
    && r.regressions == m.regressions && r.schemaChanges == m.schemaChanges
    && (r.mean.Some? <==> m.count > 0)
    && (r.mean.Some? ==> r.mean.value * m.count as real == m.sum)
    && (QuantileLaws.PositiveBounds(m.buckets.Keys) ==>
          && QuantileLaws.Divides(0.5, m.buckets, OrderedKeys(order, m.buckets.Keys), m.count, r.p50)
          && QuantileLaws.Divides(0.95, m.buckets, OrderedKeys(order, m.buckets.Keys), m.count, r.p95))
  }
}
