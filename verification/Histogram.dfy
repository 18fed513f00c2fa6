/** Classic cumulative histograms: the order of bucket labels, the monotonicity
    check and the quantile estimator of
    `backend/app/services/runtime_histogram.py`. Floats are modelled as reals. */
module Histogram {
  import opened Prelude

  /** A bucket label, by what its text parses to: a finite upper bound, infinity spelled
      otherwise than "+Inf", nothing, or the label "+Inf" itself. Two texts are two labels
      even if they parse to the same number. */
  datatype Le = Fin(bound: real, text: string) | Infinite(text: string) | Unparsable(text: string) | PosInf

  /** The sort key of `sort_bucket_les`: finite bounds ascending, then labels that parse to
      infinity or not at all (all tied), then "+Inf". */
  predicate KeyLeq(a: Le, b: Le) {
    match (a, b)
    case (Fin(x, _), Fin(y, _)) => x <= y
    case (Fin(_, _), _) => true
    case (_, Fin(_, _)) => false
    case (_, PosInf) => true
    case (PosInf, _) => false
    case _ => true
  }

  /** The labels have the same sort key. */
  predicate Tied(a: Le, b: Le) {
    KeyLeq(a, b) && KeyLeq(b, a)
  }

  predicate Sorted(s: seq<Le>) {
    forall i, j :: 0 <= i < j < |s| ==> KeyLeq(s[i], s[j])
  }

  function Insert(x: Le, s: seq<Le>): (r: seq<Le>)
    ensures multiset(r) == multiset(s) + multiset{x}
  {
    if s == [] || KeyLeq(x, s[0]) then [x] + s else
      assert s == [s[0]] + s[1..];
      [s[0]] + Insert(x, s[1..])
  }

  lemma {:induction false} InsertKeepsSorted(x: Le, s: seq<Le>)
    requires Sorted(s)
    ensures Sorted(Insert(x, s))
  {
    if s != [] && !KeyLeq(x, s[0]) {
      InsertKeepsSorted(x, s[1..]);
      var rest := Insert(x, s[1..]);
      forall i | 0 <= i < |rest| ensures KeyLeq(s[0], rest[i]) {
        assert rest[i] in multiset(rest);
        assert rest[i] == x || rest[i] in s[1..];
      }
    }
  }

  /** The stable sort Python's `sorted` performs on the labels. */
  function SortLes(les: seq<Le>): (r: seq<Le>)
    ensures multiset(r) == multiset(les)
  {
    if les == [] then [] else
      assert les == [les[0]] + les[1..];
      Insert(les[0], SortLes(les[1..]))
  }

  lemma {:induction false} SortLesSorts(les: seq<Le>)
    ensures Sorted(SortLes(les))
  {
    if les != [] {
      SortLesSorts(les[1..]);
      InsertKeepsSorted(les[0], SortLes(les[1..]));
    }
  }

  predicate Distinct(s: seq<Le>) {
    forall i, j :: 0 <= i < j < |s| ==> s[i] != s[j]
  }

  /** `les` lists the keys of a dictionary, each once, in some order. */
  predicate Enumerates(les: seq<Le>, keys: set<Le>) {
    Distinct(les) && (forall x :: x in les ==> x in keys) && (forall x :: x in keys ==> x in les)
  }

  /** Some order in which a dictionary with these keys could list them. */
  ghost function SomeListing(s: set<Le>): (r: seq<Le>)
    ensures Enumerates(r, s)
  {
    if s == {} then [] else
      var x :| x in s;
      [x] + SomeListing(s - {x})
  }

  /** No two different labels have the same sort key. */
  predicate NoTies(keys: set<Le>) {
    forall x, y :: x in keys && y in keys && Tied(x, y) ==> x == y
  }

  lemma {:induction false} SortKeepsListing(les: seq<Le>, keys: set<Le>)
    requires Enumerates(les, keys)
    ensures Sorted(SortLes(les)) && Enumerates(SortLes(les), keys)
    ensures |SortLes(les)| == |les| == |keys|
  {
    SortLesSorts(les);
    SameElementsList(les, SortLes(les), keys);
    assert |multiset(SortLes(les))| == |multiset(les)|;
    ListingLength(les, keys);
  }

  /** A rearrangement of a listing lists the same keys. */
  lemma {:induction false} SameElementsList(les: seq<Le>, r: seq<Le>, keys: set<Le>)
    requires Enumerates(les, keys) && multiset(r) == multiset(les)
    ensures Enumerates(r, keys)
  {
    forall x ensures x in r <==> x in keys {
      assert x in r <==> x in multiset(r);
      assert x in les <==> x in multiset(les);
    }
    forall i, j | 0 <= i < j < |r| ensures r[i] != r[j] {
      if r[i] == r[j] {
        OnceEach(les, r[i]);
        TwiceCounts(r, i, j);
      }
    }
  }

  lemma OnceEach(s: seq<Le>, x: Le)
    requires Distinct(s)
    ensures multiset(s)[x] <= 1
  {
    if s != [] {
      assert s == [s[0]] + s[1..];
      OnceEach(s[1..], x);
      assert forall k :: 0 <= k < |s[1..]| ==> s[1..][k] == s[k + 1];
      assert s[0] !in s[1..];
    }
  }

  lemma TwiceCounts(s: seq<Le>, i: nat, j: nat)
    requires i < j < |s| && s[i] == s[j]
    ensures multiset(s)[s[i]] >= 2
  {
    assert s == s[..j] + [s[j]] + s[j + 1..];
    assert s[..j][i] == s[i];
    assert s[i] in s[..j];
    assert multiset(s) == multiset(s[..j]) + multiset{s[j]} + multiset(s[j + 1..]);
  }

  lemma ListingLength(s: seq<Le>, keys: set<Le>)
    requires Enumerates(s, keys)
    ensures |s| == |keys|
  {
    if s == [] {
      assert keys == {};
    } else {
      forall x ensures x in s[1..] <==> x in keys - {s[0]} {
        assert s == [s[0]] + s[1..];
      }
      ListingLength(s[1..], keys - {s[0]});
    }
  }

  /** Without ties a sorted listing of a key set is unique. */
  lemma {:induction false} SortedListingUnique(a: seq<Le>, b: seq<Le>, keys: set<Le>)
    requires Enumerates(a, keys) && Enumerates(b, keys) && Sorted(a) && Sorted(b) && NoTies(keys)
    ensures a == b
  {
    ListingLength(a, keys);
    ListingLength(b, keys);
    if a != [] {
      assert a[0] in keys && b[0] in keys;
      assert a[0] in b && b[0] in a;
      assert Tied(a[0], b[0]);
      assert a[0] == b[0];
      forall x ensures x in a[1..] <==> x in keys - {a[0]} {
        assert a == [a[0]] + a[1..];
      }
      forall x ensures x in b[1..] <==> x in keys - {a[0]} {
        assert b == [b[0]] + b[1..];
      }
      SortedListingUnique(a[1..], b[1..], keys - {a[0]});
      assert a == [a[0]] + a[1..] && b == [b[0]] + b[1..];
    }
  }

  /** The cumulative counts in label order. */
  function Counts(ordered: seq<Le>, buckets: map<Le, int>): (cs: seq<int>)
    requires forall x :: x in ordered ==> x in buckets
    ensures |cs| == |ordered| && forall i :: 0 <= i < |cs| ==> cs[i] == buckets[ordered[i]]
  {
    seq(|ordered|, i requires 0 <= i < |ordered| => buckets[ordered[i]])
  }

  /** What `buckets_are_monotonic` accepts. The loop starts from -1, so a first count
      of -1 passes. */
  predicate Monotonic(cs: seq<int>) {
    && (forall i :: 0 <= i < |cs| ==> -1 <= cs[i])
    && (forall i, j :: 0 <= i < j < |cs| ==> cs[i] <= cs[j])
  }

  method BucketsAreMonotonic(buckets: map<Le, int>, ordered: seq<Le>) returns (ok: bool)
    requires forall x :: x in ordered ==> x in buckets
    ensures ok <==> Monotonic(Counts(ordered, buckets))
  {
    ghost var cs := Counts(ordered, buckets);
    var prev := -1;
    var k := 0;
    while k < |ordered|
      invariant 0 <= k <= |ordered|
      invariant -1 <= prev && prev == if k == 0 then -1 else cs[k - 1]
      invariant forall j :: 0 <= j < k ==> -1 <= cs[j] <= prev
      invariant forall i, j :: 0 <= i < j < k ==> cs[i] <= cs[j]
    {
      var count := buckets[ordered[k]];
      if count < prev {
        assert cs[k] == count && (k > 0 ==> cs[k - 1] > cs[k]);
        return false;
      }
      prev := count;
      k := k + 1;
    }
    return true;
  }

  /** The first position whose cumulative count reaches the rank. */
  function FirstReaching(cs: seq<int>, rank: real): (i: nat)
    ensures i <= |cs|
    ensures forall j :: 0 <= j < i ==> (cs[j] as real) < rank
    ensures i < |cs| ==> cs[i] as real >= rank
  {
    if cs == [] || cs[0] as real >= rank then 0 else
      var k := FirstReaching(cs[1..], rank);
      assert forall j :: 0 < j < 1 + k ==> cs[j] == cs[1..][j - 1];
      1 + k
  }

  lemma {:induction false} FirstReachingUnique(cs: seq<int>, rank: real, i: nat)
    requires i < |cs| && cs[i] as real >= rank
    requires forall j :: 0 <= j < i ==> (cs[j] as real) < rank
    ensures FirstReaching(cs, rank) == i
  {
  }

  /** The guards of `classic_histogram_quantile`. */
  predicate Accepted(q: real, buckets: map<Le, int>, ordered: seq<Le>, count: int)
    requires Enumerates(ordered, buckets.Keys)
  {
    && 0.0 < q <= 1.0
    && count > 0
    && PosInf in buckets
    && |buckets| >= 2
    && Monotonic(Counts(ordered, buckets))
    && buckets[PosInf] == count
  }

  function LowerBound(ordered: seq<Le>, i: nat): real
    requires i < |ordered|
  {
    if i == 0 || !ordered[i - 1].Fin? then 0.0 else ordered[i - 1].bound
  }

  function CountBefore(cs: seq<int>, i: nat): int
    requires i <= |cs|
  {
    if i == 0 then 0 else cs[i - 1]
  }

  /** The point of (lower, upper] that the rank cuts when the observations between the
      two cumulative counts are spread evenly. */
  function Interpolate(lower: real, upper: real, rank: real, before: int, cum: int): real
    requires before < cum
  {
    lower + (upper - lower) * ((rank - before as real) / (cum - before) as real)
  }

  /** The rank falls in a bucket: some cumulative count reaches it and the one before
      does not. */
  predicate Lands(cs: seq<int>, rank: real) {
    var i := FirstReaching(cs, rank);
    0.0 < rank && i < |cs| && (CountBefore(cs, i) as real) < rank <= cs[i] as real
  }

  /** The last finite bound before position i, which in a sorted listing is the highest. */
  function HighestFinite(ordered: seq<Le>, i: nat): Option<real>
    requires i <= |ordered|
  {
    if i == 0 then None
    else if ordered[i - 1].Fin? then Some(ordered[i - 1].bound)
    else HighestFinite(ordered, i - 1)
  }

  /** Up to position i some label does not parse, which ends the scan. */
  predicate Blocked(ordered: seq<Le>, i: nat)
    requires i < |ordered|
  {
    exists j :: 0 <= j <= i && ordered[j].Unparsable?
  }

  /** The estimate for a rank, from the bucket the rank falls in. */
  function Estimate(ordered: seq<Le>, cs: seq<int>, rank: real): Option<real>
    requires |ordered| == |cs| && Lands(cs, rank)
  {
    var i := FirstReaching(cs, rank);
    match ordered[i]
    case Fin(upper, _) =>
      var lower := LowerBound(ordered, i);
      Some(Interpolate(lower, upper, rank, CountBefore(cs, i), cs[i]))
    case _ => if Blocked(ordered, i) then None else HighestFinite(ordered, i)
  }

  lemma LastIsPosInf(ordered: seq<Le>, keys: set<Le>)
    requires Enumerates(ordered, keys) && Sorted(ordered) && PosInf in keys
    ensures ordered != [] && ordered[|ordered| - 1] == PosInf
  {
    var k :| 0 <= k < |ordered| && ordered[k] == PosInf;
    assert k < |ordered| - 1 ==> KeyLeq(ordered[k], ordered[|ordered| - 1]);
  }

  /** The number of observations at or below the q-quantile. */
  function Rank(q: real, count: int): real {
    q * count as real
  }

  lemma RankBounds(q: real, count: int)
    requires 0.0 < q <= 1.0 && count > 0
    ensures 0.0 < Rank(q, count) <= count as real
  {
    var c := count as real;
    assert q * c <= 1.0 * c;
  }

  /** For accepted input the rank falls in some bucket. */
  lemma RankLands(q: real, buckets: map<Le, int>, ordered: seq<Le>, count: int)
    requires Enumerates(ordered, buckets.Keys) && Sorted(ordered) && Accepted(q, buckets, ordered, count)
    ensures 0.0 < Rank(q, count) <= count as real
    ensures Lands(Counts(ordered, buckets), Rank(q, count))
  {
    hide Rank;
    RankBounds(q, count);
    LastIsPosInf(ordered, buckets.Keys);
    ReachedRankLands(Counts(ordered, buckets), Rank(q, count));
  }

  lemma ReachedRankLands(cs: seq<int>, rank: real)
    requires cs != [] && 0.0 < rank <= cs[|cs| - 1] as real
    ensures Lands(cs, rank)
  {
  }

  /** The estimator as one expression. */
  function Quantile(q: real, buckets: map<Le, int>, ordered: seq<Le>, count: int): Option<real>
    requires Enumerates(ordered, buckets.Keys) && Sorted(ordered)
  {
    if !Accepted(q, buckets, ordered, count) then None else
      RankLands(q, buckets, ordered, count);
      var cs := Counts(ordered, buckets);
      var rank := Rank(q, count);
      Estimate(ordered, cs, rank)
  }

  /** `classic_histogram_quantile`: it computes `Quantile`, whatever the order in which the
      dictionary lists its labels. */
  method ClassicHistogramQuantile(q: real, buckets: map<Le, int>, les: seq<Le>, count: int)
    returns (r: Option<real>)
    requires Enumerates(les, buckets.Keys)
    ensures Sorted(SortLes(les)) && Enumerates(SortLes(les), buckets.Keys)
    ensures r == Quantile(q, buckets, SortLes(les), count)
  {
    hide Rank, Estimate, Sorted, KeyLeq, Lands, Monotonic;
    SortKeepsListing(les, buckets.Keys);
    var ordered := SortLes(les);
    if q <= 0.0 || q > 1.0 { return None; }
    if count <= 0 { return None; }
    if PosInf !in buckets { return None; }
    if |buckets| < 2 { return None; }
    var monotonic := BucketsAreMonotonic(buckets, ordered);
    if !monotonic { return None; }
    if buckets[PosInf] != count { return None; }

    RankLands(q, buckets, ordered, count);
    r := ScanBuckets(buckets, ordered, Rank(q, count));
  }

  /** The loop of `classic_histogram_quantile`: it finds the bucket the rank falls in and
      interpolates. The branch for a bucket without observations and the return after the
      loop are dead. */
  method ScanBuckets(buckets: map<Le, int>, ordered: seq<Le>, rank: real) returns (r: Option<real>)
    requires Enumerates(ordered, buckets.Keys) && Sorted(ordered)
    requires Lands(Counts(ordered, buckets), rank) && PosInf in buckets && rank <= buckets[PosInf] as real
    ensures r == Estimate(ordered, Counts(ordered, buckets), rank)
  {
    hide Interpolate, Sorted, KeyLeq, Estimate, Blocked, Distinct, Lands;
    LandsSomewhere(Counts(ordered, buckets), rank);
    ghost var cs := Counts(ordered, buckets);
    var prevUpper, prevCount := 0.0, 0;
    var highestFinite: Option<real> := None;
    var finiteIndex := 0;
    var k := 0;
    while k < |ordered|
      invariant 0 <= k <= FirstReaching(cs, rank)
      invariant prevCount == CountBefore(cs, k)
      invariant (prevCount as real) < rank
      invariant forall j :: 0 <= j < k ==> !ordered[j].Unparsable?
      invariant highestFinite == HighestFinite(ordered, k)
      invariant (forall j :: 0 <= j < k ==> ordered[j].Fin?) ==> finiteIndex == k && (k > 0 ==> prevUpper == ordered[k - 1].bound)
    {
      var le := ordered[k];
      if le.Unparsable? {
        UnparsableBlocks(buckets, ordered, rank, k);
        return None;
      }
      var cum := buckets[le];
      if le.Fin? {
        highestFinite := Some(le.bound);
      }
      if (cum as real) < rank {
        if le.Fin? {
          prevUpper := le.bound;
          finiteIndex := finiteIndex + 1;
        }
        prevCount := cum;
        k := k + 1;
      } else {
        FirstReachingUnique(cs, rank, k);
        LandedHere(ordered, cs, rank, k);
        if !le.Fin? {
          return highestFinite;
        }
        var bucketCount := cum - prevCount;
        if bucketCount <= 0 {
          assert false;
        }
        var lower := if finiteIndex == 0 then 0.0 else prevUpper;
        return Some(Interpolate(lower, le.bound, rank, prevCount, cum));
      }
    }
    assert false;
  }

  lemma {:induction false} LandsSomewhere(cs: seq<int>, rank: real)
    requires Lands(cs, rank)
    ensures 0.0 < rank && FirstReaching(cs, rank) < |cs|
    ensures (CountBefore(cs, FirstReaching(cs, rank)) as real) < rank <= cs[FirstReaching(cs, rank)] as real
  {
  }

  /** What the scan returns when it ends at a label that parses. */
  lemma {:induction false} LandedHere(ordered: seq<Le>, cs: seq<int>, rank: real, k: nat)
    requires |ordered| == |cs| && Sorted(ordered) && Lands(cs, rank) && k == FirstReaching(cs, rank)
    requires forall j :: 0 <= j <= k ==> !ordered[j].Unparsable?
    ensures ordered[k].Fin? ==> forall j :: 0 <= j < k ==> ordered[j].Fin?
    ensures ordered[k].Fin? ==>
              Estimate(ordered, cs, rank) == Some(Interpolate(LowerBound(ordered, k), ordered[k].bound, rank, CountBefore(cs, k), cs[k]))
    ensures !ordered[k].Fin? ==> Estimate(ordered, cs, rank) == HighestFinite(ordered, k)
  {
    hide Interpolate;
    assert forall j :: 0 <= j < k ==> KeyLeq(ordered[j], ordered[k]);
  }

  /** Labels that do not parse sit after every finite bound, so a rank that is not
      reached before them has no estimate. */
  lemma {:induction false} UnparsableBlocks(buckets: map<Le, int>, ordered: seq<Le>, rank: real, k: nat)
    requires Enumerates(ordered, buckets.Keys) && Sorted(ordered) && k < |ordered| && ordered[k].Unparsable?
    requires Lands(Counts(ordered, buckets), rank) && k <= FirstReaching(Counts(ordered, buckets), rank)
    ensures var cs := Counts(ordered, buckets); Estimate(ordered, cs, rank) == None
  {
    var i := FirstReaching(Counts(ordered, buckets), rank);
    assert k < i ==> KeyLeq(ordered[k], ordered[i]);
  }
}
