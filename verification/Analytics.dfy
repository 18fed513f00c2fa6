/** Recent-window analytics over cumulative snapshots
    (`backend/app/services/runtime_analytics.py`): which adjacent pairs may be compared,
    the checked delta of two cumulative histograms, and the totals a window accumulates. */
module Analytics {
  import opened Prelude
  import opened Histogram

  const SUM_EPSILON: real := 0.000000001

  const HISTOGRAM_KEYS: seq<string> := [
    "ttft_seconds", "queue_time_seconds", "prefill_time_seconds", "decode_time_seconds",
    "e2e_latency_seconds", "inter_token_latency_seconds", "time_per_output_token_seconds"]

  // ------------------------------------------------------------- listing order

  ghost predicate ListsKeys(f: set<Le> -> seq<Le>) {
    forall s: set<Le> :: Enumerates(f(s), s)
  }

  /** The order in which Python happens to iterate a set of labels: unknown, so every law
      below holds for each possible one. */
  type Listing = f: set<Le> -> seq<Le> | ListsKeys(f) ghost witness ((s: set<Le>) => SomeListing(s))

  function OrderedKeys(order: Listing, keys: set<Le>): (r: seq<Le>)
    ensures Enumerates(r, keys) && Sorted(r)
  {
    SortKeepsListing(order(keys), keys);
    SortLes(order(keys))
  }

  // ----------------------------------------------------------- histogram delta

  /** A stored cumulative histogram; `None` is a value `int` or `float` rejects. */
  datatype Scrape = Scrape(count: Option<int>, sum: Option<real>, buckets: map<Le, Option<int>>)

  datatype Delta = Delta(count: int, sum: real, buckets: map<Le, int>)

  datatype Reason = BucketSchemaChange | HistogramRegression | MissingInf

  predicate AllNumbers(buckets: map<Le, Option<int>>) {
    forall x :: x in buckets ==> buckets[x].Some?
  }

  function BucketDeltas(prev: map<Le, Option<int>>, curr: map<Le, Option<int>>): (d: map<Le, int>)
    requires prev.Keys == curr.Keys && AllNumbers(prev) && AllNumbers(curr)
    ensures d.Keys == prev.Keys
    ensures forall x :: x in d ==> d[x] == curr[x].value - prev[x].value
  {
    map x | x in prev :: curr[x].value - prev[x].value
  }

  function SumDelta(prev: real, curr: real): real {
    var d := curr - prev;
    if -SUM_EPSILON < d < SUM_EPSILON then 0.0 else d
  }

  /** `histogram_delta_valid`: the difference of two scrapes, or why they may not be
      compared. */
  function HistogramDelta(order: Listing, prev: Scrape, curr: Scrape): Result<Delta, Reason> {
    if prev.count == None || curr.count == None || prev.sum == None || curr.sum == None then
      Err(HistogramRegression)
    else if prev.buckets.Keys != curr.buckets.Keys then
      Err(BucketSchemaChange)
    else if PosInf !in prev.buckets then
      Err(MissingInf)
    else if !AllNumbers(prev.buckets) || !AllNumbers(curr.buckets) then
      Err(HistogramRegression)
    else if curr.count.value < prev.count.value || curr.sum.value + SUM_EPSILON < prev.sum.value then
      Err(HistogramRegression)
    else
      var deltas := BucketDeltas(prev.buckets, curr.buckets);
      if exists x :: x in deltas && deltas[x] < 0 then
        Err(HistogramRegression)
      else if !Monotonic(Counts(OrderedKeys(order, deltas.Keys), deltas)) then
        Err(HistogramRegression)
      else if deltas[PosInf] != curr.count.value - prev.count.value then
        Err(HistogramRegression)
      else
        Ok(Delta(curr.count.value - prev.count.value, SumDelta(prev.sum.value, curr.sum.value), deltas))
  }

  // --------------------------------------------------------------- snapshots

  /** The raw `runtime_instance` of a snapshot; `None` fields are missing or not text. */
  datatype Instance = Instance(containerId: Option<string>, startedAt: Option<string>)

  datatype Snapshot = Snapshot(
    sampledAt: real,
    instance: Option<Instance>,
    promptTokens: Option<int>,
    generationTokens: Option<int>,
    histograms: map<string, Scrape>)

  datatype Identity = Identity(containerId: string, startedAt: string)

  /** `_complete_identity`: both parts present and not blank. */
  function CompleteIdentity(raw: Option<Instance>): Option<Identity> {
    match raw
    case Some(Instance(Some(c), Some(s))) =>
      if Strip(c) == "" || Strip(s) == "" then None else Some(Identity(Strip(c), Strip(s)))
    case _ => None
  }

  datatype PairKind = NonIncreasing | IdentityUnknown | ResetBoundary | SameInstance

  /** What an adjacent pair of snapshots is, in the order the loop tests it. */
  function KindOf(prev: Snapshot, curr: Snapshot): PairKind {
    var a, b := CompleteIdentity(prev.instance), CompleteIdentity(curr.instance);
    if curr.sampledAt <= prev.sampledAt then NonIncreasing
    else if a == None || b == None then IdentityUnknown
    else if a != b then ResetBoundary
    else SameInstance
  }

  /** The number of pairs of one kind among the first n snapshots. */
  function KindCount(kind: PairKind, snaps: seq<Snapshot>, n: nat): nat
    requires n <= |snaps|
  {
    if n < 2 then 0 else
      KindCount(kind, snaps, n - 1) + if KindOf(snaps[n - 2], snaps[n - 1]) == kind then 1 else 0
  }

  // ---------------------------------------------------------------- counters

  datatype Counter = Counter(delta: int, intervals: int, covered: real, regressions: int)

  const EMPTY_COUNTER := Counter(0, 0, 0.0, 0)

  /** `_accumulate_counter`. */
  function Accumulated(agg: Counter, prev: Option<int>, curr: Option<int>, duration: real): Counter {
    if prev == None || curr == None then agg
    else if curr.value < prev.value then agg.(regressions := agg.regressions + 1)
    else Counter(agg.delta + curr.value - prev.value, agg.intervals + 1, agg.covered + duration, agg.regressions)
  }

  datatype TokenField = Prompt | Generation

  function Tokens(field: TokenField, s: Snapshot): Option<int> {
    if field.Prompt? then s.promptTokens else s.generationTokens
  }

  function CountPair(field: TokenField, agg: Counter, prev: Snapshot, curr: Snapshot): Counter {
    if KindOf(prev, curr) == SameInstance
    then Accumulated(agg, Tokens(field, prev), Tokens(field, curr), curr.sampledAt - prev.sampledAt)
    else agg
  }

  /** The counter totals of the first n snapshots. */
  function CounterUpTo(field: TokenField, snaps: seq<Snapshot>, n: nat): Counter
    requires n <= |snaps|
  {
    if n < 2 then EMPTY_COUNTER else
      CountPair(field, CounterUpTo(field, snaps, n - 1), snaps[n - 2], snaps[n - 1])
  }

  // -------------------------------------------------------- merged histograms

  datatype Merged = Merged(
    schema: Option<set<Le>>,
    buckets: map<Le, int>,
    count: int,
    sum: real,
    intervals: int,
    covered: real,
    regressions: int,
    schemaChanges: int)

  const EMPTY_MERGED := Merged(None, map[], 0, 0.0, 0, 0.0, 0, 0)

  function At(buckets: map<Le, int>, x: Le): int {
    if x in buckets then buckets[x] else 0
  }

  function AddBuckets(a: map<Le, int>, b: map<Le, int>): (r: map<Le, int>)
    ensures r.Keys == a.Keys + b.Keys
    ensures forall x :: x in r ==> r[x] == At(a, x) + At(b, x)
  {
    map x | x in a.Keys + b.Keys :: At(a, x) + At(b, x)
  }

  /** One pair of scrapes absorbed into the merged histogram. */
  function Absorbed(order: Listing, agg: Merged, prev: Scrape, curr: Scrape, duration: real): Merged {
    match HistogramDelta(order, prev, curr)
    case Err(BucketSchemaChange) => agg.(schemaChanges := agg.schemaChanges + 1)
    case Err(HistogramRegression) => agg.(regressions := agg.regressions + 1)
    case Err(MissingInf) => agg
    case Ok(d) =>
      if agg.schema != None && agg.schema.value != d.buckets.Keys then
        agg.(schemaChanges := agg.schemaChanges + 1)
      else
        Merged(Some(d.buckets.Keys), AddBuckets(agg.buckets, d.buckets), agg.count + d.count, agg.sum + d.sum,
               agg.intervals + 1, agg.covered + duration, agg.regressions, agg.schemaChanges)
  }

  function MergePair(order: Listing, key: string, agg: Merged, prev: Snapshot, curr: Snapshot): Merged {
    if KindOf(prev, curr) == SameInstance && key in prev.histograms && key in curr.histograms
    then Absorbed(order, agg, prev.histograms[key], curr.histograms[key], curr.sampledAt - prev.sampledAt)
    else agg
  }

  /** The merged histogram of the first n snapshots. */
  function MergedUpTo(order: Listing, key: string, snaps: seq<Snapshot>, n: nat): Merged
    requires n <= |snaps|
  {
    if n < 2 then EMPTY_MERGED else
      MergePair(order, key, MergedUpTo(order, key, snaps, n - 1), snaps[n - 2], snaps[n - 1])
  }
}
