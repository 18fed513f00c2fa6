/** Laws of the window analytics. */
module AnalyticsLaws {
  import opened Prelude
  import opened Histogram
  import QuantileLaws
  import opened Analytics

  // ---------------------------------------------------- what a restart is

  /** The snapshot says which instance it is of: container and start time, neither blank. */
  predicate Identified(s: Snapshot) {
    && s.instance.Some? && s.instance.value.containerId.Some? && s.instance.value.startedAt.Some?
    && Strip(s.instance.value.containerId.value) != "" && Strip(s.instance.value.startedAt.value) != ""
  }

  /** Up to white space around them, container and start time are the same. */
  predicate SameIdentity(a: Snapshot, b: Snapshot)
    requires Identified(a) && Identified(b)
  {
    && Strip(a.instance.value.containerId.value) == Strip(b.instance.value.containerId.value)
    && Strip(a.instance.value.startedAt.value) == Strip(b.instance.value.startedAt.value)
  }

  /** The later snapshot continues the counting of the earlier one. */
  predicate Continues(prev: Snapshot, curr: Snapshot) {
    prev.sampledAt < curr.sampledAt && Identified(prev) && Identified(curr) && SameIdentity(prev, curr)
  }

  /** Between the snapshots the container was replaced or started again. */
  predicate Restarted(prev: Snapshot, curr: Snapshot) {
    prev.sampledAt < curr.sampledAt && Identified(prev) && Identified(curr) && !SameIdentity(prev, curr)
  }

  /** The four kinds of the loop, said of the fields of the snapshots. */
  lemma KindMeans(prev: Snapshot, curr: Snapshot)
    ensures KindOf(prev, curr) == SameInstance <==> Continues(prev, curr)
    ensures KindOf(prev, curr) == ResetBoundary <==> Restarted(prev, curr)
    ensures KindOf(prev, curr) == IdentityUnknown <==> prev.sampledAt < curr.sampledAt && !(Identified(prev) && Identified(curr))
    ensures KindOf(prev, curr) == NonIncreasing <==> curr.sampledAt <= prev.sampledAt
  {
    hide Strip;
  }

  predicate RestartAt(snaps: seq<Snapshot>, i: int)
    requires 0 < i < |snaps|
  {
    Restarted(snaps[i - 1], snaps[i])
  }

  predicate UnknownAt(snaps: seq<Snapshot>, i: int)
    requires 0 < i < |snaps|
  {
    snaps[i - 1].sampledAt < snaps[i].sampledAt && !(Identified(snaps[i - 1]) && Identified(snaps[i]))
  }

  /** The pairs among the first n snapshots, each given by its later one, that restart, and
      those in time order with an unknown instance. */
  function Restarts(snaps: seq<Snapshot>, n: nat): set<int>
    requires n <= |snaps|
  {
    set i | 0 < i < n && RestartAt(snaps, i)
  }

  function Unknowns(snaps: seq<Snapshot>, n: nat): set<int>
    requires n <= |snaps|
  {
    set i | 0 < i < n && UnknownAt(snaps, i)
  }

  /** The two boundary counts of a window are the numbers of these pairs. */
  lemma {:induction false} BoundariesMean(snaps: seq<Snapshot>, n: nat)
    requires n <= |snaps|
    ensures KindCount(ResetBoundary, snaps, n) == |Restarts(snaps, n)|
    ensures KindCount(IdentityUnknown, snaps, n) == |Unknowns(snaps, n)|
  {
    hide KindOf, RestartAt, UnknownAt;
    if n < 2 {
      assert Restarts(snaps, n) == {} && Unknowns(snaps, n) == {};
    } else {
      hide Restarts, Unknowns;
      BoundariesMean(snaps, n - 1);
      KindAt(snaps, n - 1);
      OneMorePair(snaps, n);
    }
  }

  lemma OneMorePair(snaps: seq<Snapshot>, n: nat)
    requires 2 <= n <= |snaps|
    ensures |Restarts(snaps, n)| == |Restarts(snaps, n - 1)| + if RestartAt(snaps, n - 1) then 1 else 0
    ensures |Unknowns(snaps, n)| == |Unknowns(snaps, n - 1)| + if UnknownAt(snaps, n - 1) then 1 else 0
  {
    hide RestartAt, UnknownAt;
    assert Restarts(snaps, n) == Restarts(snaps, n - 1) + if RestartAt(snaps, n - 1) then {n - 1} else {};
    assert Unknowns(snaps, n) == Unknowns(snaps, n - 1) + if UnknownAt(snaps, n - 1) then {n - 1} else {};
  }

  lemma KindAt(snaps: seq<Snapshot>, i: int)
    requires 0 < i < |snaps|
    ensures KindOf(snaps[i - 1], snaps[i]) == ResetBoundary <==> RestartAt(snaps, i)
    ensures KindOf(snaps[i - 1], snaps[i]) == IdentityUnknown <==> UnknownAt(snaps, i)
  {
    KindMeans(snaps[i - 1], snaps[i]);
    hide KindOf, Restarted, Identified;
  }

  /** A pair that does not continue adds nothing to any total. */
  lemma OnlyContinuingPairsCount(order: Listing, key: string, field: TokenField, snaps: seq<Snapshot>, n: nat)
    requires 2 <= n <= |snaps| && !Continues(snaps[n - 2], snaps[n - 1])
    ensures CounterUpTo(field, snaps, n) == CounterUpTo(field, snaps, n - 1)
    ensures MergedUpTo(order, key, snaps, n) == MergedUpTo(order, key, snaps, n - 1)
  {
    KindMeans(snaps[n - 2], snaps[n - 1]);
    hide KindOf, Continues, Absorbed, Accumulated;
  }

  // ------------------------------------------------- which deltas are accepted

  predicate HasTotals(s: Scrape) {
    s.count.Some? && s.sum.Some?
  }

  /** Nothing that is counted fell, the sum at most by the tolerance. */
  ghost predicate NothingFell(prev: Scrape, curr: Scrape)
    requires HasTotals(prev) && HasTotals(curr)
  {
    && (forall x :: x in curr.buckets ==> curr.buckets[x].Some? && x in prev.buckets && prev.buckets[x].Some?)
    && prev.count.value <= curr.count.value
    && prev.sum.value - 0.000000001 <= curr.sum.value
    && forall x :: x in curr.buckets ==> BucketOf(prev, x) <= BucketOf(curr, x)
  }

  /** What was counted in between is a histogram: larger bounds hold no less, and "+Inf" holds
      all. */
  ghost predicate GrewAsHistogram(order: Listing, prev: Scrape, curr: Scrape)
    requires HasTotals(prev) && HasTotals(curr)
  {
    var ordered := OrderedKeys(order, curr.buckets.Keys);
    && (forall i, j :: 0 <= i < j < |ordered| ==>
          BucketOf(curr, ordered[i]) - BucketOf(prev, ordered[i]) <= BucketOf(curr, ordered[j]) - BucketOf(prev, ordered[j]))
    && BucketOf(curr, PosInf) - BucketOf(prev, PosInf) == curr.count.value - prev.count.value
  }

  /** Exactly which two scrapes may be compared, and why others may not. */
  lemma DeltaMeans(order: Listing, prev: Scrape, curr: Scrape)
    ensures HistogramDelta(order, prev, curr).Ok? <==>
              && HasTotals(prev) && HasTotals(curr) && prev.buckets.Keys == curr.buckets.Keys && PosInf in curr.buckets
              && NothingFell(prev, curr) && GrewAsHistogram(order, prev, curr)
    ensures HistogramDelta(order, prev, curr) == Err(BucketSchemaChange) <==>
              HasTotals(prev) && HasTotals(curr) && prev.buckets.Keys != curr.buckets.Keys
    ensures HistogramDelta(order, prev, curr) == Err(MissingInf) <==>
              HasTotals(prev) && HasTotals(curr) && prev.buckets.Keys == curr.buckets.Keys && PosInf !in curr.buckets
  {
    hide OrderedKeys, ListsKeys, Enumerates, SumDelta;
    if HasTotals(prev) && HasTotals(curr) && prev.buckets.Keys == curr.buckets.Keys && PosInf in curr.buckets
       && AllNumbers(prev.buckets) && AllNumbers(curr.buckets) {
      var deltas := BucketDeltas(prev.buckets, curr.buckets);
      assert deltas.Keys == curr.buckets.Keys;
      assert forall x :: x in deltas ==> deltas[x] == BucketOf(curr, x) - BucketOf(prev, x);
      if NothingFell(prev, curr) {
        GrowthIsMonotonic(order, prev, curr, deltas);
      }
    }
  }

  lemma GrowthIsMonotonic(order: Listing, prev: Scrape, curr: Scrape, deltas: map<Le, int>)
    requires deltas.Keys == curr.buckets.Keys && forall x :: x in deltas ==> deltas[x] == BucketOf(curr, x) - BucketOf(prev, x) >= 0
    ensures var ordered := OrderedKeys(order, curr.buckets.Keys);
            Monotonic(Counts(OrderedKeys(order, deltas.Keys), deltas)) <==>
              forall i, j :: 0 <= i < j < |ordered| ==>
                BucketOf(curr, ordered[i]) - BucketOf(prev, ordered[i]) <= BucketOf(curr, ordered[j]) - BucketOf(prev, ordered[j])
  {
    hide OrderedKeys, ListsKeys, BucketOf;
    var ordered := OrderedKeys(order, curr.buckets.Keys);
    var cs := Counts(ordered, deltas);
    assert forall i :: 0 <= i < |cs| ==> ordered[i] in curr.buckets.Keys && cs[i] == BucketOf(curr, ordered[i]) - BucketOf(prev, ordered[i]);
  }

  /** What a pair of scrapes adds: an accepted one of the known label set its differences and
      its time, any other one nothing but one refusal. */
  lemma AbsorbMeans(order: Listing, agg: Merged, prev: Scrape, curr: Scrape, duration: real)
    ensures var m := Absorbed(order, agg, prev, curr, duration);
            if HistogramDelta(order, prev, curr).Ok? && (agg.schema.None? || agg.schema.value == curr.buckets.Keys) then
              && m.schema == Some(curr.buckets.Keys) && m.intervals == agg.intervals + 1 && m.covered == agg.covered + duration
              && m.count == agg.count + CountOf(curr) - CountOf(prev)
              && Abs(m.sum - (agg.sum + SumOf(curr) - SumOf(prev))) < 0.000000001
              && m.buckets.Keys == agg.buckets.Keys + curr.buckets.Keys
              && (forall x :: x in m.buckets ==> m.buckets[x] == At(agg.buckets, x) + BucketOf(curr, x) - BucketOf(prev, x))
              && m.regressions == agg.regressions && m.schemaChanges == agg.schemaChanges
            else
              var relabelled := HistogramDelta(order, prev, curr).Ok? || HistogramDelta(order, prev, curr) == Err(BucketSchemaChange);
              m == agg.(schemaChanges := agg.schemaChanges + (if relabelled then 1 else 0),
                        regressions := agg.regressions + if HistogramDelta(order, prev, curr) == Err(HistogramRegression) then 1 else 0)
  {
    hide HistogramDelta, ListsKeys;
    if HistogramDelta(order, prev, curr).Ok? {
      DeltaTelescopes(order, prev, curr);
      var d := HistogramDelta(order, prev, curr).value;
      hide Abs, CountOf, SumOf;
      SumShift(agg.sum, d.sum, SumOf(curr) - SumOf(prev));
      assert forall x :: x !in curr.buckets ==> BucketOf(curr, x) == BucketOf(prev, x) == 0;
    }
  }

  lemma SumShift(a: real, d: real, e: real)
    requires Abs(d - e) < SUM_EPSILON
    ensures Abs(a + d - (a + e)) < SUM_EPSILON
  {
  }

  // ------------------------------------------------ merged histograms are valid

  /** Counts never fall along strictly increasing sort keys. */
  ghost predicate MonotoneByBound(buckets: map<Le, int>) {
    forall x, y :: x in buckets && y in buckets && KeyLeq(x, y) && !KeyLeq(y, x) ==> buckets[x] <= buckets[y]
  }

  ghost predicate ValidHistogram(buckets: map<Le, int>, count: int) {
    && (forall x :: x in buckets ==> buckets[x] >= 0)
    && MonotoneByBound(buckets)
    && PosInf in buckets && buckets[PosInf] == count
  }

  /** The counts do not fall along the listing that is used for these labels. */
  ghost predicate InOrder(order: Listing, buckets: map<Le, int>) {
    Monotonic(Counts(OrderedKeys(order, buckets.Keys), buckets))
  }

  lemma MonotonicByBound(ordered: seq<Le>, buckets: map<Le, int>)
    requires Enumerates(ordered, buckets.Keys) && Sorted(ordered) && Monotonic(Counts(ordered, buckets))
    ensures MonotoneByBound(buckets)
  {
    var cs := Counts(ordered, buckets);
    forall x, y | x in buckets && y in buckets && KeyLeq(x, y) && !KeyLeq(y, x) ensures buckets[x] <= buckets[y] {
      var i :| 0 <= i < |ordered| && ordered[i] == x;
      var j :| 0 <= j < |ordered| && ordered[j] == y;
      assert i < j;
      assert cs[i] <= cs[j];
    }
  }

  lemma DeltaIsValid(order: Listing, prev: Scrape, curr: Scrape)
    requires HistogramDelta(order, prev, curr).Ok?
    ensures var d := HistogramDelta(order, prev, curr).value; ValidHistogram(d.buckets, d.count) && InOrder(order, d.buckets)
  {
    var d := HistogramDelta(order, prev, curr).value;
    MonotonicByBound(OrderedKeys(order, d.buckets.Keys), d.buckets);
  }

  lemma SumIsValid(a: map<Le, int>, b: map<Le, int>, n: int, m: int)
    requires ValidHistogram(a, n) && ValidHistogram(b, m) && a.Keys == b.Keys
    ensures ValidHistogram(AddBuckets(a, b), n + m)
  {
    var r := AddBuckets(a, b);
    forall x, y | x in r && y in r && KeyLeq(x, y) && !KeyLeq(y, x) ensures r[x] <= r[y] {
      assert a[x] <= a[y] && b[x] <= b[y];
    }
  }

  lemma SumInOrder(order: Listing, a: map<Le, int>, b: map<Le, int>)
    requires InOrder(order, a) && InOrder(order, b) && a.Keys == b.Keys
    requires (forall x :: x in a ==> a[x] >= 0) && forall x :: x in b ==> b[x] >= 0
    ensures InOrder(order, AddBuckets(a, b))
  {
    hide OrderedKeys, AddBuckets, ListsKeys;
    var r := AddBuckets(a, b);
    assert r.Keys == a.Keys;
    SumMonotonic(OrderedKeys(order, a.Keys), a, b, r);
  }

  lemma SumMonotonic(ordered: seq<Le>, a: map<Le, int>, b: map<Le, int>, r: map<Le, int>)
    requires a.Keys == b.Keys == r.Keys && (forall x :: x in ordered ==> x in a) && forall x :: x in r ==> r[x] == a[x] + b[x]
    requires Monotonic(Counts(ordered, a)) && Monotonic(Counts(ordered, b))
    requires (forall x :: x in a ==> a[x] >= 0) && forall x :: x in b ==> b[x] >= 0
    ensures Monotonic(Counts(ordered, r))
  {
    var ca, cb, cr := Counts(ordered, a), Counts(ordered, b), Counts(ordered, r);
    forall i | 0 <= i < |cr| ensures cr[i] == ca[i] + cb[i] && cr[i] >= 0 {
      assert ordered[i] in a.Keys;
    }
  }

  /** The state of a merged histogram: nothing yet, or a valid histogram over its schema. */
  ghost predicate WellFormed(order: Listing, m: Merged) {
    && m.intervals >= 0
    && match m.schema
       case None => m.buckets == map[] && m.count == 0 && m.sum == 0.0 && m.intervals == 0
       case Some(keys) => m.buckets.Keys == keys && ValidHistogram(m.buckets, m.count) && InOrder(order, m.buckets)
  }

  lemma AbsorbedWellFormed(order: Listing, agg: Merged, prev: Scrape, curr: Scrape, duration: real)
    requires WellFormed(order, agg)
    ensures WellFormed(order, Absorbed(order, agg, prev, curr, duration))
  {
    hide HistogramDelta, InOrder, MonotoneByBound, ListsKeys;
    var r := HistogramDelta(order, prev, curr);
    if r.Ok? {
      DeltaIsValid(order, prev, curr);
      if agg.schema == Some(r.value.buckets.Keys) {
        SumIsValid(agg.buckets, r.value.buckets, agg.count, r.value.count);
        SumInOrder(order, agg.buckets, r.value.buckets);
      } else if agg.schema == None {
        assert AddBuckets(agg.buckets, r.value.buckets) == r.value.buckets;
      }
    }
  }

  lemma MergePairWellFormed(order: Listing, key: string, agg: Merged, prev: Snapshot, curr: Snapshot)
    requires WellFormed(order, agg)
    ensures WellFormed(order, MergePair(order, key, agg, prev, curr))
  {
    hide Absorbed, KindOf, WellFormed;
    if key in prev.histograms && key in curr.histograms {
      AbsorbedWellFormed(order, agg, prev.histograms[key], curr.histograms[key], curr.sampledAt - prev.sampledAt);
    }
  }

  /** After any list of snapshots a merged histogram is non-negative, monotone in bound
      order, and its "+Inf" bucket is its count. */
  lemma {:induction false} MergedIsValid(order: Listing, key: string, snaps: seq<Snapshot>, n: nat)
    requires n <= |snaps|
    ensures WellFormed(order, MergedUpTo(order, key, snaps, n))
  {
    if n >= 2 {
      hide MergePair, WellFormed;
      MergedIsValid(order, key, snaps, n - 1);
      MergePairWellFormed(order, key, MergedUpTo(order, key, snaps, n - 1), snaps[n - 2], snaps[n - 1]);
    }
  }

  /** The merged histogram of a key and its sorted labels. */
  function MergedQuantile(q: real, order: Listing, m: Merged): Option<real> {
    Quantile(q, m.buckets, OrderedKeys(order, m.buckets.Keys), m.count)
  }

  /** Hence, once something was counted over at least two labels, p50 and p95 are never
      rejected: each exists exactly when the scan finds an estimate, so both do if every label
      parses and one is finite. p50 never exceeds p95 when the bounds are not negative. */
  lemma {:induction false} PercentilesDefined(order: Listing, key: string, snaps: seq<Snapshot>)
    requires var m := MergedUpTo(order, key, snaps, |snaps|); m.count > 0 && |m.buckets| >= 2
    ensures var m := MergedUpTo(order, key, snaps, |snaps|);
            && (forall q :: q == 0.5 || q == 0.95 ==>
                  && QuantileLaws.ValidRequest(q, m.buckets, OrderedKeys(order, m.buckets.Keys), m.count)
                  && (MergedQuantile(q, order, m).Some? <==>
                        QuantileLaws.Answered(q, m.buckets, OrderedKeys(order, m.buckets.Keys), m.count))
                  && (QuantileLaws.AllParse(m.buckets) && QuantileLaws.HasFinite(m.buckets) ==> MergedQuantile(q, order, m).Some?))
            && (QuantileLaws.NonNegativeBounds(m.buckets.Keys) && MergedQuantile(0.95, order, m).Some? ==>
                  MergedQuantile(0.5, order, m).Some? && MergedQuantile(0.5, order, m).value <= MergedQuantile(0.95, order, m).value)
  {
    hide Quantile, MergedUpTo, QuantileLaws.Answered, Rank, Monotonic, ListsKeys, MonotoneByBound, QuantileLaws.AllParse, QuantileLaws.HasFinite;
    MergedIsValid(order, key, snaps, |snaps|);
    var m := MergedUpTo(order, key, snaps, |snaps|);
    var ordered := OrderedKeys(order, m.buckets.Keys);
    assert QuantileLaws.ValidRequest(0.5, m.buckets, ordered, m.count) && QuantileLaws.ValidRequest(0.95, m.buckets, ordered, m.count);
    QuantileLaws.QuantileDefinedIff(0.5, m.buckets, ordered, m.count);
    QuantileLaws.QuantileDefinedIff(0.95, m.buckets, ordered, m.count);
    if QuantileLaws.NonNegativeBounds(m.buckets.Keys) && MergedQuantile(0.95, order, m).Some? {
      QuantileLaws.QuantileMonotone(0.5, 0.95, m.buckets, ordered, m.count);
    }
  }

  /** Were the merged labels listed in some other order than the deltas, the percentile could
      change exactly when some listing can answer and some listing can fail. */
  lemma {:induction false} PercentileOrderIff(order: Listing, key: string, snaps: seq<Snapshot>, q: real)
    requires var m := MergedUpTo(order, key, snaps, |snaps|); m.count > 0 && |m.buckets| >= 2
    requires 0.0 < q <= 1.0
    ensures var m := MergedUpTo(order, key, snaps, |snaps|);
            QuantileLaws.OrderMatters(q, m.buckets, m.count)
            <==> QuantileLaws.CanAnswer(q, m.buckets, m.count) && QuantileLaws.CanFail(q, m.buckets, m.count)
  {
    hide MergedUpTo, QuantileLaws.OrderMatters, QuantileLaws.CanAnswer, QuantileLaws.CanFail, InOrder, ListsKeys;
    MergedIsValid(order, key, snaps, |snaps|);
    var m := MergedUpTo(order, key, snaps, |snaps|);
    QuantileLaws.OrderMattersIff(q, m.buckets, m.count);
    assert QuantileLaws.Climbs(m.buckets);
  }

  // ------------------------------------------------------------- telescoping

  lemma {:induction false} IntervalsBounded(order: Listing, key: string, snaps: seq<Snapshot>, n: nat)
    requires n <= |snaps|
    ensures 0 <= MergedUpTo(order, key, snaps, n).intervals <= if n == 0 then 0 else n - 1
  {
    hide MergePair;
    if n >= 2 {
      IntervalsBounded(order, key, snaps, n - 1);
      AbsorbStep(order, key, MergedUpTo(order, key, snaps, n - 1), snaps[n - 2], snaps[n - 1]);
    }
  }

  function Abs(x: real): real {
    if x < 0.0 then -x else x
  }

  function CountOf(s: Scrape): int {
    if s.count.Some? then s.count.value else 0
  }

  function SumOf(s: Scrape): real {
    if s.sum.Some? then s.sum.value else 0.0
  }

  function BucketOf(s: Scrape, x: Le): int {
    if x in s.buckets && s.buckets[x].Some? then s.buckets[x].value else 0
  }

  /** The totals telescope to the difference of two scrapes up to an error in the sum. */
  ghost predicate Telescoped(m: Merged, first: Scrape, last: Scrape, error: real) {
    && m.schema == Some(last.buckets.Keys) && first.buckets.Keys == last.buckets.Keys
    && m.count == CountOf(last) - CountOf(first)
    && m.buckets.Keys == last.buckets.Keys
    && (forall x :: x in m.buckets ==> m.buckets[x] == BucketOf(last, x) - BucketOf(first, x))
    && Abs(m.sum - (SumOf(last) - SumOf(first))) < error
  }

  lemma DeltaTelescopes(order: Listing, prev: Scrape, curr: Scrape)
    requires HistogramDelta(order, prev, curr).Ok?
    ensures var d := HistogramDelta(order, prev, curr).value;
            && prev.buckets.Keys == curr.buckets.Keys == d.buckets.Keys
            && d.count == CountOf(curr) - CountOf(prev)
            && (forall x :: x in d.buckets ==> d.buckets[x] == BucketOf(curr, x) - BucketOf(prev, x))
            && Abs(d.sum - (SumOf(curr) - SumOf(prev))) < SUM_EPSILON
  {
  }

  lemma AbsorbTelescopes(order: Listing, agg: Merged, first: Scrape, prev: Scrape, curr: Scrape, duration: real, error: real)
    requires Absorbed(order, agg, prev, curr, duration).intervals > agg.intervals
    requires if agg == EMPTY_MERGED.(regressions := agg.regressions, schemaChanges := agg.schemaChanges)
             then first == prev && error == 0.0
             else Telescoped(agg, first, prev, error)
    ensures Telescoped(Absorbed(order, agg, prev, curr, duration), first, curr, error + SUM_EPSILON)
  {
    hide HistogramDelta;
    var r := HistogramDelta(order, prev, curr);
    assert r.Ok?;
    DeltaTelescopes(order, prev, curr);
    var m := Absorbed(order, agg, prev, curr, duration);
    assert m.buckets == AddBuckets(agg.buckets, r.value.buckets);
  }

  /** When every interval of at least two snapshots was accepted, the merged count and
      every bucket are exactly last minus first, and the merged sum is within (n - 1)
      tolerances of last minus first. */
  lemma {:induction false} MergedTelescopes(order: Listing, key: string, snaps: seq<Snapshot>, n: nat)
    requires 2 <= n <= |snaps| && MergedUpTo(order, key, snaps, n).intervals == n - 1
    ensures key in snaps[0].histograms && key in snaps[n - 1].histograms
    ensures Telescoped(MergedUpTo(order, key, snaps, n), snaps[0].histograms[key], snaps[n - 1].histograms[key],
                       (n - 1) as real * SUM_EPSILON)
  {
    hide Absorbed, KindOf, Telescoped, MergePair, CountOf, SumOf;
    IntervalsBounded(order, key, snaps, n - 1);
    var agg := MergedUpTo(order, key, snaps, n - 1);
    var prev, curr := snaps[n - 2], snaps[n - 1];
    AbsorbStep(order, key, agg, prev, curr);
    var duration := curr.sampledAt - prev.sampledAt;
    if n == 2 {
      assert agg == EMPTY_MERGED;
      AbsorbTelescopes(order, agg, prev.histograms[key], prev.histograms[key], curr.histograms[key], duration, 0.0);
    } else {
      MergedTelescopes(order, key, snaps, n - 1);
      var error := (n - 2) as real * SUM_EPSILON;
      AbsorbTelescopes(order, agg, snaps[0].histograms[key], prev.histograms[key], curr.histograms[key], duration, error);
      assert error + SUM_EPSILON == (n - 1) as real * SUM_EPSILON;
    }
  }

  /** An interval is added at most once, and only by an accepted pair. */
  lemma AbsorbStep(order: Listing, key: string, agg: Merged, prev: Snapshot, curr: Snapshot)
    ensures var m := MergePair(order, key, agg, prev, curr);
            && agg.intervals <= m.intervals <= agg.intervals + 1
            && (m.intervals > agg.intervals ==>
                 && KindOf(prev, curr) == SameInstance && key in prev.histograms && key in curr.histograms
                 && m == Absorbed(order, agg, prev.histograms[key], curr.histograms[key], curr.sampledAt - prev.sampledAt))
  {
    hide HistogramDelta, KindOf, AddBuckets;
  }

  // -------------------------------------------------------- restart blindness

  datatype HistogramShift = HistogramShift(count: int, sum: real, buckets: map<Le, int>)

  /** Constants added to the cumulative values of one snapshot. */
  datatype Shift = Shift(prompt: int, generation: int, histograms: map<string, HistogramShift>)

  function Plus(x: Option<int>, d: int): Option<int> {
    match x
    case None => None
    case Some(v) => Some(v + d)
  }

  function ShiftScrape(s: Scrape, d: HistogramShift): (r: Scrape)
    ensures r.buckets.Keys == s.buckets.Keys
  {
    Scrape(Plus(s.count, d.count),
           match s.sum case None => None case Some(v) => Some(v + d.sum),
           map x | x in s.buckets :: Plus(s.buckets[x], At(d.buckets, x)))
  }

  function ShiftSnapshot(s: Snapshot, d: Shift): (r: Snapshot)
    ensures r.sampledAt == s.sampledAt && r.instance == s.instance
    ensures r.histograms.Keys == s.histograms.Keys
  {
    s.(promptTokens := Plus(s.promptTokens, d.prompt),
       generationTokens := Plus(s.generationTokens, d.generation),
       histograms := map k | k in s.histograms ::
         if k in d.histograms then ShiftScrape(s.histograms[k], d.histograms[k]) else s.histograms[k])
  }

  function ShiftAll(snaps: seq<Snapshot>, shifts: seq<Shift>): (r: seq<Snapshot>)
    requires |snaps| == |shifts|
    ensures |r| == |snaps| && forall i :: 0 <= i < |r| ==> r[i] == ShiftSnapshot(snaps[i], shifts[i])
  {
    seq(|snaps|, i requires 0 <= i < |snaps| => ShiftSnapshot(snaps[i], shifts[i]))
  }

  /** The shift changes only where the runtime instance does: constant over every maximal
      same-instance run, free across restarts. */
  ghost predicate ConstantPerRun(snaps: seq<Snapshot>, shifts: seq<Shift>) {
    && |snaps| == |shifts|
    && forall i :: 0 < i < |snaps| && Continues(snaps[i - 1], snaps[i]) ==> shifts[i - 1] == shifts[i]
  }

  lemma ShiftKeepsKind(a: Snapshot, b: Snapshot, d: Shift, e: Shift)
    ensures KindOf(ShiftSnapshot(a, d), ShiftSnapshot(b, e)) == KindOf(a, b)
  {
    hide ShiftSnapshot, CompleteIdentity;
  }

  /** The same values are missing, and the ones that are not have the same differences. */
  ghost predicate SameDifferences(prev: Scrape, curr: Scrape, p: Scrape, c: Scrape) {
    && (p.count.Some? <==> prev.count.Some?) && (c.count.Some? <==> curr.count.Some?)
    && (p.sum.Some? <==> prev.sum.Some?) && (c.sum.Some? <==> curr.sum.Some?)
    && p.buckets.Keys == prev.buckets.Keys && c.buckets.Keys == curr.buckets.Keys
    && (AllNumbers(p.buckets) <==> AllNumbers(prev.buckets)) && (AllNumbers(c.buckets) <==> AllNumbers(curr.buckets))
    && (prev.count.Some? && curr.count.Some? ==> c.count.value - p.count.value == curr.count.value - prev.count.value)
    && (prev.sum.Some? && curr.sum.Some? ==> c.sum.value - p.sum.value == curr.sum.value - prev.sum.value)
    && (prev.buckets.Keys == curr.buckets.Keys && AllNumbers(prev.buckets) && AllNumbers(curr.buckets) ==>
         BucketDeltas(p.buckets, c.buckets) == BucketDeltas(prev.buckets, curr.buckets))
  }

  lemma DeltaFromDifferences(order: Listing, prev: Scrape, curr: Scrape, p: Scrape, c: Scrape)
    requires SameDifferences(prev, curr, p, c)
    ensures HistogramDelta(order, p, c) == HistogramDelta(order, prev, curr)
  {
    hide AllNumbers, BucketDeltas, OrderedKeys, Monotonic, Counts, ListsKeys;
  }

  lemma ShiftKeepsDelta(order: Listing, prev: Scrape, curr: Scrape, d: HistogramShift)
    ensures HistogramDelta(order, ShiftScrape(prev, d), ShiftScrape(curr, d)) == HistogramDelta(order, prev, curr)
  {
    hide HistogramDelta, AllNumbers, BucketDeltas;
    ShiftKeepsNumbers(prev, d);
    ShiftKeepsNumbers(curr, d);
    if prev.buckets.Keys == curr.buckets.Keys && AllNumbers(prev.buckets) && AllNumbers(curr.buckets) {
      ShiftKeepsBuckets(prev, curr, d);
    }
    DeltaFromDifferences(order, prev, curr, ShiftScrape(prev, d), ShiftScrape(curr, d));
  }

  lemma ShiftKeepsBuckets(prev: Scrape, curr: Scrape, d: HistogramShift)
    requires prev.buckets.Keys == curr.buckets.Keys && AllNumbers(prev.buckets) && AllNumbers(curr.buckets)
    ensures var p, c := ShiftScrape(prev, d).buckets, ShiftScrape(curr, d).buckets;
            && AllNumbers(p) && AllNumbers(c)
            && BucketDeltas(p, c) == BucketDeltas(prev.buckets, curr.buckets)
  {
  }

  lemma ShiftKeepsNumbers(s: Scrape, d: HistogramShift)
    ensures AllNumbers(ShiftScrape(s, d).buckets) <==> AllNumbers(s.buckets)
  {
    var t := ShiftScrape(s, d);
    assert forall x :: x in s.buckets ==> (t.buckets[x].Some? <==> s.buckets[x].Some?);
  }

  lemma ShiftKeepsMergePair(order: Listing, key: string, agg: Merged, prev: Snapshot, curr: Snapshot, d: Shift, e: Shift)
    requires KindOf(prev, curr) == SameInstance ==> d == e
    ensures MergePair(order, key, agg, ShiftSnapshot(prev, d), ShiftSnapshot(curr, e)) == MergePair(order, key, agg, prev, curr)
  {
    hide HistogramDelta, ShiftScrape, KindOf, AddBuckets;
    ShiftKeepsKind(prev, curr, d, e);
    if key in prev.histograms && key in curr.histograms && key in d.histograms {
      ShiftKeepsDelta(order, prev.histograms[key], curr.histograms[key], d.histograms[key]);
    }
  }

  lemma ShiftKeepsCountPair(field: TokenField, agg: Counter, prev: Snapshot, curr: Snapshot, d: Shift, e: Shift)
    requires KindOf(prev, curr) == SameInstance ==> d == e
    ensures CountPair(field, agg, ShiftSnapshot(prev, d), ShiftSnapshot(curr, e)) == CountPair(field, agg, prev, curr)
  {
    ShiftKeepsKind(prev, curr, d, e);
    hide KindOf;
  }

  /** Restart blindness: no token total, interval count, regression count, merged
      histogram or boundary count depends on the level a run of one instance counts from. */
  lemma {:induction false} RestartBlind(order: Listing, snaps: seq<Snapshot>, shifts: seq<Shift>, n: nat)
    requires ConstantPerRun(snaps, shifts) && n <= |snaps|
    ensures forall field :: CounterUpTo(field, ShiftAll(snaps, shifts), n) == CounterUpTo(field, snaps, n)
    ensures forall key :: MergedUpTo(order, key, ShiftAll(snaps, shifts), n) == MergedUpTo(order, key, snaps, n)
    ensures forall kind :: KindCount(kind, ShiftAll(snaps, shifts), n) == KindCount(kind, snaps, n)
  {
    hide MergePair, CountPair, KindOf, ShiftSnapshot, Continues;
    if n >= 2 {
      RestartBlind(order, snaps, shifts, n - 1);
      var a, b, d, e := snaps[n - 2], snaps[n - 1], shifts[n - 2], shifts[n - 1];
      ShiftKeepsKind(a, b, d, e);
      KindMeans(a, b);
      forall field ensures CounterUpTo(field, ShiftAll(snaps, shifts), n) == CounterUpTo(field, snaps, n) {
        ShiftKeepsCountPair(field, CounterUpTo(field, snaps, n - 1), a, b, d, e);
      }
      forall key ensures MergedUpTo(order, key, ShiftAll(snaps, shifts), n) == MergedUpTo(order, key, snaps, n) {
        ShiftKeepsMergePair(order, key, MergedUpTo(order, key, snaps, n - 1), a, b, d, e);
      }
    }
  }

  // ------------------------------------------- partition, coverage and windows

  lemma PairCounts(field: TokenField, agg: Counter, prev: Snapshot, curr: Snapshot)
    ensures var a, b := Tokens(field, prev), Tokens(field, curr);
            CountPair(field, agg, prev, curr) ==
              if !Continues(prev, curr) || a.None? || b.None? then agg
              else if b.value < a.value then agg.(regressions := agg.regressions + 1)
              else Counter(agg.delta + b.value - a.value, agg.intervals + 1, agg.covered + curr.sampledAt - prev.sampledAt, agg.regressions)
  {
    hide KindOf, Continues, Identified, SameIdentity;
    KindMeans(prev, curr);
  }

  /** Over a run without restart or fall the totals are last minus first: the prompt and the
      generated tokens, each in its own counter, and the time. */
  lemma {:induction false} CountersTelescope(snaps: seq<Snapshot>, n: nat)
    requires 1 <= n <= |snaps|
    requires forall i :: 0 < i < n ==> Contributes(Prompt, snaps, i) && Contributes(Generation, snaps, i)
    ensures var p, g := CounterUpTo(Prompt, snaps, n), CounterUpTo(Generation, snaps, n);
            && p.intervals == g.intervals == n - 1 && p.regressions == g.regressions == 0
            && p.covered == g.covered == snaps[n - 1].sampledAt - snaps[0].sampledAt
            && (n > 1 ==>
                  && snaps[0].promptTokens.Some? && snaps[n - 1].promptTokens.Some?
                  && snaps[0].generationTokens.Some? && snaps[n - 1].generationTokens.Some?
                  && p.delta == snaps[n - 1].promptTokens.value - snaps[0].promptTokens.value
                  && g.delta == snaps[n - 1].generationTokens.value - snaps[0].generationTokens.value)
  {
    hide Continues, CountPair;
    if n >= 2 {
      assert Contributes(Prompt, snaps, n - 1) && Contributes(Generation, snaps, n - 1);
      PairCounts(Prompt, CounterUpTo(Prompt, snaps, n - 1), snaps[n - 2], snaps[n - 1]);
      PairCounts(Generation, CounterUpTo(Generation, snaps, n - 1), snaps[n - 2], snaps[n - 1]);
      CountersTelescope(snaps, n - 1);
    }
  }

  /** Every adjacent pair is of exactly one kind. */
  lemma {:induction false} KindsPartition(snaps: seq<Snapshot>, n: nat)
    requires 1 <= n <= |snaps|
    ensures KindCount(NonIncreasing, snaps, n) + KindCount(IdentityUnknown, snaps, n)
            + KindCount(ResetBoundary, snaps, n) + KindCount(SameInstance, snaps, n) == n - 1
  {
    hide KindOf;
    if n >= 2 {
      KindsPartition(snaps, n - 1);
    }
  }

  /** The same-instance pairs of which both snapshots hold the counter. */
  function PresentPairs(field: TokenField, snaps: seq<Snapshot>, n: nat): nat
    requires n <= |snaps|
  {
    if n < 2 then 0
    else
      var prev, curr := snaps[n - 2], snaps[n - 1];
      PresentPairs(field, snaps, n - 1)
      + if Continues(prev, curr) && Tokens(field, prev).Some? && Tokens(field, curr).Some? then 1 else 0
  }

  /** Each of these is counted once: as an interval or as a regression. */
  lemma {:induction false} EveryPairAccounted(field: TokenField, snaps: seq<Snapshot>, n: nat)
    requires n <= |snaps|
    ensures CounterUpTo(field, snaps, n).intervals + CounterUpTo(field, snaps, n).regressions == PresentPairs(field, snaps, n)
    ensures CounterUpTo(field, snaps, n).delta >= 0
  {
    hide CountPair, Continues;
    if n >= 2 {
      PairCounts(field, CounterUpTo(field, snaps, n - 1), snaps[n - 2], snaps[n - 1]);
      EveryPairAccounted(field, snaps, n - 1);
    }
  }

  /** Two scrapes that could be compared but for the missing "+Inf" in both of them. */
  predicate LackInf(prev: Scrape, curr: Scrape) {
    HasTotals(prev) && HasTotals(curr) && prev.buckets.Keys == curr.buckets.Keys && PosInf !in curr.buckets
  }

  /** The same-instance pairs of which both snapshots hold the histogram, closed by "+Inf". */
  function ScrapePairs(key: string, snaps: seq<Snapshot>, n: nat): nat
    requires n <= |snaps|
  {
    if n < 2 then 0
    else
      var prev, curr := snaps[n - 2], snaps[n - 1];
      ScrapePairs(key, snaps, n - 1)
      + if Continues(prev, curr) && key in prev.histograms && key in curr.histograms
           && !LackInf(prev.histograms[key], curr.histograms[key]) then 1 else 0
  }

  /** Each of these is counted once: as an interval, a regression or a change of labels. */
  lemma {:induction false} HistogramPairsAccounted(order: Listing, key: string, snaps: seq<Snapshot>, n: nat)
    requires n <= |snaps|
    ensures var m := MergedUpTo(order, key, snaps, n);
            m.intervals + m.regressions + m.schemaChanges == ScrapePairs(key, snaps, n)
  {
    hide KindOf, Continues, Absorbed, HistogramDelta, LackInf;
    if n >= 2 {
      HistogramPairsAccounted(order, key, snaps, n - 1);
      var prev, curr := snaps[n - 2], snaps[n - 1];
      KindMeans(prev, curr);
      if key in prev.histograms && key in curr.histograms {
        AbsorbCounts(order, MergedUpTo(order, key, snaps, n - 1), prev.histograms[key], curr.histograms[key], curr.sampledAt - prev.sampledAt);
      }
    }
  }

  lemma AbsorbCounts(order: Listing, agg: Merged, prev: Scrape, curr: Scrape, duration: real)
    ensures var m := Absorbed(order, agg, prev, curr, duration);
            m.intervals + m.regressions + m.schemaChanges
            == agg.intervals + agg.regressions + agg.schemaChanges + if LackInf(prev, curr) then 0 else 1
  {
    DeltaMeans(order, prev, curr);
    hide HistogramDelta, GrewAsHistogram, NothingFell, AddBuckets;
  }

  predicate TimeOrdered(snaps: seq<Snapshot>) {
    forall i, j :: 0 <= i < j < |snaps| ==> snaps[i].sampledAt <= snaps[j].sampledAt
  }

  /** For time-ordered snapshots no total covers more time than the window spans. */
  lemma {:induction false} CoverageWithinSpan(order: Listing, field: TokenField, key: string, snaps: seq<Snapshot>, n: nat)
    requires TimeOrdered(snaps) && 1 <= n <= |snaps|
    ensures 0.0 <= CounterUpTo(field, snaps, n).covered <= snaps[n - 1].sampledAt - snaps[0].sampledAt
    ensures 0.0 <= MergedUpTo(order, key, snaps, n).covered <= snaps[n - 1].sampledAt - snaps[0].sampledAt
  {
    hide HistogramDelta, CompleteIdentity;
    if n >= 2 {
      CoverageWithinSpan(order, field, key, snaps, n - 1);
    }
  }

  /** The pair ending at snapshot i contributed to the counter. */
  predicate Contributes(field: TokenField, snaps: seq<Snapshot>, i: nat)
    requires 0 < i < |snaps|
  {
    var prev, curr := Tokens(field, snaps[i - 1]), Tokens(field, snaps[i]);
    Continues(snaps[i - 1], snaps[i]) && prev.Some? && curr.Some? && prev.value <= curr.value
  }

  function Seconds(snaps: seq<Snapshot>, i: nat): real
    requires 0 < i < |snaps|
  {
    snaps[i].sampledAt - snaps[i - 1].sampledAt
  }

  function Growth(field: TokenField, snaps: seq<Snapshot>, i: nat): int
    requires 0 < i < |snaps| && Contributes(field, snaps, i)
  {
    Tokens(field, snaps[i]).value - Tokens(field, snaps[i - 1]).value
  }

  lemma CounterStep(field: TokenField, snaps: seq<Snapshot>, n: nat)
    requires 2 <= n <= |snaps|
    ensures var a, b := CounterUpTo(field, snaps, n - 1), CounterUpTo(field, snaps, n);
            if Contributes(field, snaps, n - 1)
            then b.delta == a.delta + Growth(field, snaps, n - 1) && b.covered == a.covered + Seconds(snaps, n - 1)
                 && b.intervals == a.intervals + 1 && Seconds(snaps, n - 1) > 0.0
            else b.delta == a.delta && b.covered == a.covered && b.intervals == a.intervals
  {
    hide CountPair, Identified, SameIdentity, Tokens;
    PairCounts(field, CounterUpTo(field, snaps, n - 1), snaps[n - 2], snaps[n - 1]);
  }

  /** If every contributing interval grows at a rate between lo and hi, so does the total. */
  lemma {:induction false} TotalsBetween(field: TokenField, snaps: seq<Snapshot>, n: nat, lo: real, hi: real)
    requires n <= |snaps|
    requires forall i :: 0 < i < n && Contributes(field, snaps, i) ==>
               lo * Seconds(snaps, i) <= Growth(field, snaps, i) as real <= hi * Seconds(snaps, i)
    ensures var c := CounterUpTo(field, snaps, n); lo * c.covered <= c.delta as real <= hi * c.covered
  {
    hide Contributes, Growth, Seconds, KindOf, CountPair;
    if n >= 2 {
      CounterStep(field, snaps, n);
      TotalsBetween(field, snaps, n - 1, lo, hi);
      var a := CounterUpTo(field, snaps, n - 1);
      if Contributes(field, snaps, n - 1) {
        Distribute(lo, a.covered, Seconds(snaps, n - 1));
        Distribute(hi, a.covered, Seconds(snaps, n - 1));
      }
    }
  }

  lemma Distribute(k: real, a: real, b: real)
    ensures k * (a + b) == k * a + k * b
  {
  }

  function PairRate(field: TokenField, snaps: seq<Snapshot>, i: nat): real
    requires 0 < i < |snaps| && Contributes(field, snaps, i)
  {
    Growth(field, snaps, i) as real / Seconds(snaps, i)
  }

  lemma {:induction false} ExtremeRates(field: TokenField, snaps: seq<Snapshot>, n: nat) returns (slow: nat, fast: nat)
    requires n <= |snaps| && CounterUpTo(field, snaps, n).intervals > 0
    ensures 0 < slow < n && Contributes(field, snaps, slow) && 0 < fast < n && Contributes(field, snaps, fast)
    ensures forall i :: 0 < i < n && Contributes(field, snaps, i) ==>
              PairRate(field, snaps, slow) <= PairRate(field, snaps, i) <= PairRate(field, snaps, fast)
    ensures CounterUpTo(field, snaps, n).covered > 0.0
  {
    hide Contributes, PairRate, Growth, Seconds, KindOf, CountPair;
    assert n >= 2;
    CounterStep(field, snaps, n);
    CoveredNonNegative(field, snaps, n - 1);
    if CounterUpTo(field, snaps, n - 1).intervals > 0 {
      slow, fast := ExtremeRates(field, snaps, n - 1);
      if Contributes(field, snaps, n - 1) {
        if PairRate(field, snaps, n - 1) < PairRate(field, snaps, slow) { slow := n - 1; }
        if PairRate(field, snaps, n - 1) > PairRate(field, snaps, fast) { fast := n - 1; }
      }
    } else {
      NoIntervalsNoPairs(field, snaps, n - 1);
      slow, fast := n - 1, n - 1;
    }
  }

  lemma {:induction false} CoveredNonNegative(field: TokenField, snaps: seq<Snapshot>, n: nat)
    requires n <= |snaps|
    ensures CounterUpTo(field, snaps, n).covered >= 0.0 && CounterUpTo(field, snaps, n).intervals >= 0
  {
    if n >= 2 {
      CoveredNonNegative(field, snaps, n - 1);
      CounterStep(field, snaps, n);
    }
  }

  lemma {:induction false} NoIntervalsNoPairs(field: TokenField, snaps: seq<Snapshot>, n: nat)
    requires n <= |snaps| && CounterUpTo(field, snaps, n).intervals == 0
    ensures forall i :: 0 < i < n ==> !Contributes(field, snaps, i)
  {
    hide Contributes, Growth, Seconds, KindOf, CountPair;
    if n >= 2 {
      CounterStep(field, snaps, n);
      CoveredNonNegative(field, snaps, n - 1);
      NoIntervalsNoPairs(field, snaps, n - 1);
    }
  }

  lemma RateScales(growth: real, seconds: real, rate: real)
    requires seconds > 0.0
    ensures rate <= growth / seconds ==> rate * seconds <= growth
    ensures growth / seconds <= rate ==> growth <= rate * seconds
  {
    var r := growth / seconds;
    assert r * seconds == growth;
    assert rate <= r ==> (r - rate) * seconds >= 0.0;
    assert r <= rate ==> (rate - r) * seconds >= 0.0;
  }

  lemma RateBetween(delta: real, covered: real, lo: real, hi: real)
    requires covered > 0.0 && lo * covered <= delta <= hi * covered
    ensures lo <= delta / covered <= hi
  {
    var r := delta / covered;
    assert r * covered == delta;
    assert r < lo ==> (lo - r) * covered > 0.0;
    assert r > hi ==> (r - hi) * covered > 0.0;
  }

  /** The reported token rate lies between the slowest and the fastest contributing pair. */
  lemma {:induction false} RateWithinPairRates(field: TokenField, snaps: seq<Snapshot>)
    requires CounterUpTo(field, snaps, |snaps|).intervals > 0
    ensures var c := CounterUpTo(field, snaps, |snaps|);
            && c.covered > 0.0
            && exists slow: nat, fast: nat ::
                 && 0 < slow < |snaps| && 0 < fast < |snaps|
                 && Contributes(field, snaps, slow) && Contributes(field, snaps, fast)
                 && PairRate(field, snaps, slow) <= c.delta as real / c.covered <= PairRate(field, snaps, fast)
  {
    hide CounterUpTo, Contributes, PairRate, Seconds, Growth;
    var slow, fast := ExtremeRates(field, snaps, |snaps|);
    var lo, hi := PairRate(field, snaps, slow), PairRate(field, snaps, fast);
    forall i | 0 < i < |snaps| && Contributes(field, snaps, i)
      ensures lo * Seconds(snaps, i) <= Growth(field, snaps, i) as real <= hi * Seconds(snaps, i)
    {
      PairRateScales(field, snaps, i, lo, hi);
    }
    TotalsBetween(field, snaps, |snaps|, lo, hi);
    var c := CounterUpTo(field, snaps, |snaps|);
    RateBetween(c.delta as real, c.covered, lo, hi);
  }

  lemma PositiveSeconds(field: TokenField, snaps: seq<Snapshot>, i: nat)
    requires 0 < i < |snaps| && Contributes(field, snaps, i)
    ensures Seconds(snaps, i) > 0.0
  {
  }

  lemma PairRateScales(field: TokenField, snaps: seq<Snapshot>, i: nat, lo: real, hi: real)
    requires 0 < i < |snaps| && Contributes(field, snaps, i) && lo <= PairRate(field, snaps, i) <= hi
    ensures lo * Seconds(snaps, i) <= Growth(field, snaps, i) as real <= hi * Seconds(snaps, i)
  {
    hide Contributes, Growth, Seconds, KindOf;
    PositiveSeconds(field, snaps, i);
    RateScales(Growth(field, snaps, i) as real, Seconds(snaps, i), lo);
    RateScales(Growth(field, snaps, i) as real, Seconds(snaps, i), hi);
  }

  function AddCounters(a: Counter, b: Counter): Counter {
    Counter(a.delta + b.delta, a.intervals + b.intervals, a.covered + b.covered, a.regressions + b.regressions)
  }

  lemma {:induction false} CounterPrefix(field: TokenField, snaps: seq<Snapshot>, cut: nat, n: nat)
    requires n <= cut <= |snaps|
    ensures CounterUpTo(field, snaps[..cut], n) == CounterUpTo(field, snaps, n)
  {
    if n >= 2 {
      CounterPrefix(field, snaps, cut, n - 1);
    }
  }

  lemma CountPairAdds(field: TokenField, a: Counter, b: Counter, prev: Snapshot, curr: Snapshot)
    ensures AddCounters(a, CountPair(field, b, prev, curr)) == CountPair(field, AddCounters(a, b), prev, curr)
  {
    hide KindOf;
  }

  lemma CounterUnfolds(field: TokenField, snaps: seq<Snapshot>, n: nat)
    requires 1 <= n <= |snaps|
    ensures CounterUpTo(field, snaps, n) ==
            if n == 1 then EMPTY_COUNTER else CountPair(field, CounterUpTo(field, snaps, n - 1), snaps[n - 2], snaps[n - 1])
  {
  }

  lemma {:induction false} CounterSuffix(field: TokenField, snaps: seq<Snapshot>, tail: seq<Snapshot>, cut: nat, n: nat)
    requires cut < |snaps| && |tail| == |snaps| - cut && 1 <= n <= |tail|
    requires forall i :: 0 <= i < |tail| ==> tail[i] == snaps[cut + i]
    ensures AddCounters(CounterUpTo(field, snaps, cut + 1), CounterUpTo(field, tail, n)) == CounterUpTo(field, snaps, cut + n)
  {
    hide CounterUpTo, CountPair;
    CounterUnfolds(field, tail, n);
    if n >= 2 {
      CounterSuffix(field, snaps, tail, cut, n - 1);
      CounterUnfolds(field, snaps, cut + n);
      CountPairAdds(field, CounterUpTo(field, snaps, cut + 1), CounterUpTo(field, tail, n - 1), snaps[cut + n - 2], snaps[cut + n - 1]);
      assert tail[n - 2] == snaps[cut + n - 2] && tail[n - 1] == snaps[cut + n - 1];
    }
  }

  /** Two windows that share their cut snapshot add up to the whole window. */
  lemma {:induction false} WindowsAdd(field: TokenField, snaps: seq<Snapshot>, cut: nat)
    requires cut < |snaps|
    ensures AddCounters(CounterUpTo(field, snaps[..cut + 1], cut + 1), CounterUpTo(field, snaps[cut..], |snaps| - cut))
            == CounterUpTo(field, snaps, |snaps|)
  {
    hide CounterUpTo, AddCounters;
    CounterPrefix(field, snaps, cut + 1, cut + 1);
    CounterSuffix(field, snaps, snaps[cut..], cut, |snaps| - cut);
  }
}
