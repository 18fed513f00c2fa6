/** What the quantile estimate means: it inverts the interpolated cumulative count, is
    monotone in q, and depends neither on the listing order of the buckets nor on the
    unit the observations are counted in. */
module QuantileLaws {
  import opened Prelude
  import opened Histogram

  predicate PositiveBounds(keys: set<Le>) {
    forall x :: x in keys && x.Fin? ==> x.bound > 0.0
  }

  predicate NonNegativeBounds(keys: set<Le>) {
    forall x :: x in keys && x.Fin? ==> x.bound >= 0.0
  }

  /** An accepted quantile request on the sorted listing of a dictionary. */
  ghost predicate ValidRequest(q: real, buckets: map<Le, int>, ordered: seq<Le>, count: int) {
    Enumerates(ordered, buckets.Keys) && Sorted(ordered) && Accepted(q, buckets, ordered, count)
  }

  /** The bucket a rank lands in. */
  function Landing(q: real, buckets: map<Le, int>, ordered: seq<Le>, count: int): (i: nat)
    requires Enumerates(ordered, buckets.Keys) && Sorted(ordered) && Accepted(q, buckets, ordered, count)
    ensures i < |ordered|
  {
    RankLands(q, buckets, ordered, count);
    FirstReaching(Counts(ordered, buckets), Rank(q, count))
  }

  /** The first bucket whose bound is not below x. */
  function FirstCovering(ordered: seq<Le>, x: real): (i: nat)
    ensures i <= |ordered|
    ensures forall j :: 0 <= j < i ==> ordered[j].Fin? && ordered[j].bound < x
    ensures i < |ordered| ==> !ordered[i].Fin? || x <= ordered[i].bound
  {
    if ordered == [] || !ordered[0].Fin? || x <= ordered[0].bound then 0 else
      var k := FirstCovering(ordered[1..], x);
      assert forall j :: 0 < j < 1 + k ==> ordered[j] == ordered[1..][j - 1];
      1 + k
  }

  /** The cumulative count at x, found by searching the bounds: linear inside the bucket
      that covers x. This is the function a quantile is meant to invert. */
  function CumulativeAt(ordered: seq<Le>, cs: seq<int>, x: real): real
    requires |ordered| == |cs|
  {
    var i := FirstCovering(ordered, x);
    var before := CountBefore(cs, i) as real;
    if i < |ordered| && ordered[i].Fin? && LowerBound(ordered, i) < ordered[i].bound then
      Rise(LowerBound(ordered, i), ordered[i].bound, CountBefore(cs, i), cs[i], x)
    else before
  }

  /** The count at x on the straight line from (lower, before) to (upper, cum). */
  function Rise(lower: real, upper: real, before: int, cum: int, x: real): real
    requires lower < upper
  {
    before as real + (cum - before) as real * ((x - lower) / (upper - lower))
  }

  lemma BoundsAscend(ordered: seq<Le>, keys: set<Le>, i: nat)
    requires Enumerates(ordered, keys) && Sorted(ordered) && PositiveBounds(keys)
    requires i < |ordered| && ordered[i].Fin?
    ensures 0.0 <= LowerBound(ordered, i) <= ordered[i].bound && 0.0 < ordered[i].bound
    ensures forall j :: 0 <= j < i ==> ordered[j].Fin? && ordered[j].bound <= LowerBound(ordered, i)
    ensures i > 0 ==> LowerBound(ordered, i) == ordered[i - 1].bound
  {
    forall j | 0 <= j < i ensures ordered[j].Fin? && ordered[j].bound <= LowerBound(ordered, i) {
      assert KeyLeq(ordered[j], ordered[i]) && KeyLeq(ordered[i - 1], ordered[i]);
      assert j < i - 1 ==> KeyLeq(ordered[j], ordered[i - 1]);
    }
    assert ordered[i] in keys;
  }

  lemma Fraction(a: real, b: real)
    requires 0.0 < a <= b
    ensures 0.0 < a / b <= 1.0
    ensures (a / b) * b == a
  {
    var f := a / b;
    assert f * b == a;
    assert f > 1.0 ==> f * b > b;
    assert f <= 0.0 ==> f * b <= 0.0;
  }

  lemma PartOfWidth(w: real, f: real)
    requires w > 0.0 && 0.0 < f <= 1.0
    ensures 0.0 < w * f <= w
    ensures (w * f) / w == f
  {
    assert w * f <= w * 1.0;
  }

  lemma InterpolateInverts(lower: real, upper: real, rank: real, before: int, cum: int)
    requires lower < upper && (before as real) < rank <= cum as real
    ensures var x := Interpolate(lower, upper, rank, before, cum);
            && lower < x <= upper
            && Rise(lower, upper, before, cum, x) == rank
  {
    var f := (rank - before as real) / (cum - before) as real;
    Fraction(rank - before as real, (cum - before) as real);
    PartOfWidth(upper - lower, f);
    var x := Interpolate(lower, upper, rank, before, cum);
    assert x - lower == (upper - lower) * f;
    assert (x - lower) / (upper - lower) == f;
    assert f * (cum - before) as real == rank - before as real;
  }

  lemma {:induction false} CoveringUnique(ordered: seq<Le>, x: real, i: nat)
    requires i < |ordered| && ordered[i].Fin? && x <= ordered[i].bound
    requires forall j :: 0 <= j < i ==> ordered[j].Fin? && ordered[j].bound < x
    ensures FirstCovering(ordered, x) == i
  {
    var k := FirstCovering(ordered, x);
    assert k >= i;
  }

  /** The quantile lies between the bounds of the first bucket whose cumulative count reaches
      q * count, and the interpolated cumulative count at the quantile is exactly q * count.
      Only where two labels spell one bound the bucket has no width: the quantile is then that
      bound, at which the count jumps over q * count. */
  lemma QuantileInvertsCumulative(q: real, buckets: map<Le, int>, ordered: seq<Le>, count: int)
    requires ValidRequest(q, buckets, ordered, count) && PositiveBounds(buckets.Keys)
    requires ordered[Landing(q, buckets, ordered, count)].Fin?
    ensures Quantile(q, buckets, ordered, count).Some?
    ensures Inverts(ordered, Counts(ordered, buckets), Landing(q, buckets, ordered, count),
                    Quantile(q, buckets, ordered, count).value, Rank(q, count))
  {
    hide Rank, Inverts;
    RankLands(q, buckets, ordered, count);
    var i := Landing(q, buckets, ordered, count);
    EstimateInverts(buckets, ordered, Rank(q, count), i);
  }

  /** The value lies in bucket i, and there the cumulative count is the rank, unless the bucket
      has no width. */
  predicate Inverts(ordered: seq<Le>, cs: seq<int>, i: nat, value: real, rank: real)
    requires i < |ordered| == |cs| && ordered[i].Fin?
  {
    && LowerBound(ordered, i) <= value <= ordered[i].bound
    && (CumulativeAt(ordered, cs, value) == rank <==> LowerBound(ordered, i) < ordered[i].bound)
    && (LowerBound(ordered, i) < ordered[i].bound ==> LowerBound(ordered, i) < value)
    && CumulativeAt(ordered, cs, value) <= rank <= cs[i] as real
  }

  /** The answer divides the observations: if the rank q * count lands on a bound, the answer
      inverts it there. */
  ghost predicate Divides(q: real, buckets: map<Le, int>, ordered: seq<Le>, count: int, answer: Option<real>) {
    ValidRequest(q, buckets, ordered, count) && ordered[Landing(q, buckets, ordered, count)].Fin? ==>
      answer.Some? && Inverts(ordered, Counts(ordered, buckets), Landing(q, buckets, ordered, count), answer.value, q * count as real)
  }

  lemma QuantileDivides(q: real, buckets: map<Le, int>, ordered: seq<Le>, count: int)
    requires Enumerates(ordered, buckets.Keys) && Sorted(ordered) && PositiveBounds(buckets.Keys)
    ensures Divides(q, buckets, ordered, count, Quantile(q, buckets, ordered, count))
  {
    hide Quantile, Inverts, Sorted, Enumerates, Accepted, PositiveBounds;
    if ValidRequest(q, buckets, ordered, count) && ordered[Landing(q, buckets, ordered, count)].Fin? {
      QuantileInvertsCumulative(q, buckets, ordered, count);
      assert Rank(q, count) == q * count as real;
    }
  }

  lemma {:induction false} EstimateInverts(buckets: map<Le, int>, ordered: seq<Le>, rank: real, i: nat)
    requires Enumerates(ordered, buckets.Keys) && Sorted(ordered) && PositiveBounds(buckets.Keys)
    requires Lands(Counts(ordered, buckets), rank) && i == FirstReaching(Counts(ordered, buckets), rank)
    requires ordered[i].Fin?
    ensures var r := Estimate(ordered, Counts(ordered, buckets), rank);
            r.Some? && Inverts(ordered, Counts(ordered, buckets), i, r.value, rank)
  {
    BoundsAscend(ordered, buckets.Keys, i);
    var cs := Counts(ordered, buckets);
    if LowerBound(ordered, i) < ordered[i].bound {
      hide Sorted, KeyLeq, FirstReaching;
      EstimateInBucket(ordered, cs, rank, i);
    } else {
      var k := FirstCovering(ordered, ordered[i].bound);
      assert k < i;
      BoundsAscend(ordered, buckets.Keys, k);
      hide Sorted, KeyLeq;
      EstimateAtJump(ordered, cs, rank, i, k);
    }
  }

  lemma {:induction false} EstimateInBucket(ordered: seq<Le>, cs: seq<int>, rank: real, i: nat)
    requires |ordered| == |cs| && Lands(cs, rank) && i == FirstReaching(cs, rank) && ordered[i].Fin?
    requires LowerBound(ordered, i) < ordered[i].bound
    requires forall j :: 0 <= j < i ==> ordered[j].Fin? && ordered[j].bound <= LowerBound(ordered, i)
    ensures var r := Estimate(ordered, cs, rank); r.Some? && Inverts(ordered, cs, i, r.value, rank)
  {
    hide Interpolate, Rise;
    var lower, upper := LowerBound(ordered, i), ordered[i].bound;
    InterpolateInverts(lower, upper, rank, CountBefore(cs, i), cs[i]);
    var x := Interpolate(lower, upper, rank, CountBefore(cs, i), cs[i]);
    CoveringUnique(ordered, x, i);
  }

  /** In a bucket without width: k is the first label that spells the bound. */
  lemma {:induction false} EstimateAtJump(ordered: seq<Le>, cs: seq<int>, rank: real, i: nat, k: nat)
    requires |ordered| == |cs| && Lands(cs, rank) && i == FirstReaching(cs, rank) && ordered[i].Fin?
    requires LowerBound(ordered, i) == ordered[i].bound
    requires k < i && k == FirstCovering(ordered, ordered[i].bound)
    requires ordered[k].Fin? && ordered[k].bound == ordered[i].bound && LowerBound(ordered, k) < ordered[k].bound
    ensures var r := Estimate(ordered, cs, rank); r.Some? && Inverts(ordered, cs, i, r.value, rank)
  {
    hide Interpolate, Rise;
    FlatInterpolate(ordered[i].bound, rank, CountBefore(cs, i), cs[i]);
    RiseToEnd(LowerBound(ordered, k), ordered[k].bound, CountBefore(cs, k), cs[k]);
    assert (cs[k] as real) < rank;
  }

  lemma FlatInterpolate(bound: real, rank: real, before: int, cum: int)
    requires before < cum
    ensures Interpolate(bound, bound, rank, before, cum) == bound
  {
    assert (bound - bound) * ((rank - before as real) / (cum - before) as real) == 0.0;
  }

  lemma RiseToEnd(lower: real, upper: real, before: int, cum: int)
    requires lower < upper
    ensures Rise(lower, upper, before, cum, upper) == cum as real
  {
    assert (upper - lower) / (upper - lower) == 1.0;
  }

  /** The highest finite bound before a position, if there is one. */
  lemma {:induction false} HighestIs(ordered: seq<Le>, i: nat)
    requires Sorted(ordered) && i <= |ordered|
    ensures HighestFinite(ordered, i).None? <==> forall j :: 0 <= j < i ==> !ordered[j].Fin?
    ensures HighestFinite(ordered, i).Some? ==>
              && (exists j :: 0 <= j < i && ordered[j].Fin? && ordered[j].bound == HighestFinite(ordered, i).value)
              && (forall j :: 0 <= j < i && ordered[j].Fin? ==> ordered[j].bound <= HighestFinite(ordered, i).value)
    decreases i
  {
    if i > 0 {
      HighestIs(ordered, i - 1);
      if ordered[i - 1].Fin? {
        forall j | 0 <= j < i && ordered[j].Fin? ensures ordered[j].bound <= ordered[i - 1].bound {
          assert j < i - 1 ==> KeyLeq(ordered[j], ordered[i - 1]);
        }
      }
    }
  }

  ghost predicate HasFinite(buckets: map<Le, int>) {
    exists x :: x in buckets && x.Fin?
  }

  ghost predicate AllParse(buckets: map<Le, int>) {
    forall x :: x in buckets ==> !x.Unparsable?
  }

  /** When no finite bucket reaches the rank and every label parses, the estimate is the
      highest finite bound, if there is one. */
  lemma QuantileAboveAllBounds(q: real, buckets: map<Le, int>, ordered: seq<Le>, count: int)
    requires ValidRequest(q, buckets, ordered, count) && AllParse(buckets)
    requires !ordered[Landing(q, buckets, ordered, count)].Fin?
    ensures var r := Quantile(q, buckets, ordered, count);
            && (r.Some? <==> HasFinite(buckets))
            && (r.Some? ==> exists x :: x in buckets && x.Fin? && x.bound == r.value)
            && (r.Some? ==> forall x :: x in buckets && x.Fin? ==> x.bound <= r.value && (buckets[x] as real) < Rank(q, count))
  {
    hide Rank;
    RankLands(q, buckets, ordered, count);
    EstimateAboveAllBounds(buckets, ordered, Rank(q, count));
  }

  lemma {:induction false} EstimateAboveAllBounds(buckets: map<Le, int>, ordered: seq<Le>, rank: real)
    requires Enumerates(ordered, buckets.Keys) && Sorted(ordered)
    requires Lands(Counts(ordered, buckets), rank) && !ordered[FirstReaching(Counts(ordered, buckets), rank)].Fin?
    requires !Blocked(ordered, FirstReaching(Counts(ordered, buckets), rank))
    ensures var r := Estimate(ordered, Counts(ordered, buckets), rank);
            && (r.Some? <==> HasFinite(buckets))
            && (r.Some? ==> exists x :: x in buckets && x.Fin? && x.bound == r.value)
            && (r.Some? ==> forall x :: x in buckets && x.Fin? ==> x.bound <= r.value && (buckets[x] as real) < rank)
  {
    hide Interpolate, LowerBound, Sorted, KeyLeq, FirstReaching, Distinct;
    var cs := Counts(ordered, buckets);
    var i := FirstReaching(cs, rank);
    FiniteBelow(buckets, ordered, rank);
    HighestOverall(buckets, ordered, i);
    hide Blocked, HasFinite;
  }

  lemma {:induction false} HighestOverall(buckets: map<Le, int>, ordered: seq<Le>, i: nat)
    requires Enumerates(ordered, buckets.Keys) && Sorted(ordered) && i <= |ordered|
    requires forall x :: x in buckets && x.Fin? ==> exists j :: 0 <= j < i && ordered[j] == x
    ensures var r := HighestFinite(ordered, i);
            && (r.Some? <==> HasFinite(buckets))
            && (r.Some? ==> exists x :: x in buckets && x.Fin? && x.bound == r.value)
            && (r.Some? ==> forall x :: x in buckets && x.Fin? ==> x.bound <= r.value)
  {
    HighestIs(ordered, i);
    hide Sorted, KeyLeq, HighestFinite, Distinct;
    var r := HighestFinite(ordered, i);
    if r.Some? {
      var j :| 0 <= j < i && ordered[j].Fin? && ordered[j].bound == r.value;
      assert ordered[j] in buckets.Keys;
    }
  }

  /** When the rank does not land on a finite bound, all finite bounds come before. */
  lemma {:induction false} FiniteBelow(buckets: map<Le, int>, ordered: seq<Le>, rank: real)
    requires Enumerates(ordered, buckets.Keys) && Sorted(ordered)
    requires Lands(Counts(ordered, buckets), rank) && !ordered[FirstReaching(Counts(ordered, buckets), rank)].Fin?
    ensures forall x :: x in buckets && x.Fin? ==>
              (buckets[x] as real) < rank && exists j :: 0 <= j < FirstReaching(Counts(ordered, buckets), rank) && ordered[j] == x
  {
    var cs := Counts(ordered, buckets);
    var i := FirstReaching(cs, rank);
    forall x | x in buckets && x.Fin?
      ensures (buckets[x] as real) < rank && exists j :: 0 <= j < i && ordered[j] == x
    {
      var k :| 0 <= k < |ordered| && ordered[k] == x;
      FiniteFirst(ordered, i, k);
      assert cs[k] == buckets[x];
    }
  }

  lemma SortedLength(ordered: seq<Le>, keys: set<Le>)
    requires Enumerates(ordered, keys)
    ensures |ordered| == |keys|
  {
    ListingLength(ordered, keys);
  }

  /** Some finite bucket reaches the rank. */
  ghost predicate FiniteReaches(q: real, buckets: map<Le, int>, count: int) {
    exists x :: x in buckets && x.Fin? && buckets[x] as real >= Rank(q, count)
  }

  /** The scan finds an estimate: a finite bucket reaches the rank, or there is a finite bound
      and every label up to where the rank lands parses. */
  ghost predicate Answered(q: real, buckets: map<Le, int>, ordered: seq<Le>, count: int)
    requires ValidRequest(q, buckets, ordered, count)
  {
    FiniteReaches(q, buckets, count) || (HasFinite(buckets) && !Blocked(ordered, Landing(q, buckets, ordered, count)))
  }

  /** Exactly when an accepted request has an estimate; if every label parses, exactly when
      there is a finite bound. */
  lemma QuantileDefinedIff(q: real, buckets: map<Le, int>, ordered: seq<Le>, count: int)
    requires ValidRequest(q, buckets, ordered, count)
    ensures Quantile(q, buckets, ordered, count).Some? <==> Answered(q, buckets, ordered, count)
    ensures AllParse(buckets) ==> (Answered(q, buckets, ordered, count) <==> HasFinite(buckets))
  {
    hide Rank;
    RankLands(q, buckets, ordered, count);
    EstimateDefinedIff(buckets, ordered, Rank(q, count));
    hide Quantile, Estimate;
    if AllParse(buckets) {
      assert forall j :: 0 <= j < |ordered| ==> ordered[j] in buckets.Keys;
    }
  }

  lemma FiniteFirst(ordered: seq<Le>, i: nat, k: nat)
    requires Sorted(ordered) && i < |ordered| && k < |ordered| && !ordered[i].Fin? && ordered[k].Fin?
    ensures k < i
  {
  }

  lemma {:induction false} EstimateDefinedIff(buckets: map<Le, int>, ordered: seq<Le>, rank: real)
    requires Enumerates(ordered, buckets.Keys) && Sorted(ordered)
    requires Lands(Counts(ordered, buckets), rank)
    ensures Estimate(ordered, Counts(ordered, buckets), rank).Some? <==>
            (exists x :: x in buckets && x.Fin? && buckets[x] as real >= rank)
            || (HasFinite(buckets) && !Blocked(ordered, FirstReaching(Counts(ordered, buckets), rank)))
  {
    var cs := Counts(ordered, buckets);
    var i := FirstReaching(cs, rank);
    if ordered[i].Fin? {
      assert ordered[i] in buckets && cs[i] == buckets[ordered[i]];
    } else {
      FiniteBelow(buckets, ordered, rank);
      hide Sorted, KeyLeq;
      if !Blocked(ordered, i) {
        EstimateAboveAllBounds(buckets, ordered, rank);
      }
    }
  }

  lemma {:induction false} ReachingMonotone(cs: seq<int>, r1: real, r2: real)
    requires r1 <= r2
    ensures FirstReaching(cs, r1) <= FirstReaching(cs, r2)
  {
  }

  lemma InterpolateMonotone(lower: real, upper: real, r1: real, r2: real, before: int, cum: int)
    requires lower <= upper && r1 <= r2 && before < cum
    ensures Interpolate(lower, upper, r1, before, cum) <= Interpolate(lower, upper, r2, before, cum)
  {
    var d := (cum - before) as real;
    var f1, f2 := (r1 - before as real) / d, (r2 - before as real) / d;
    assert f2 - f1 == (r2 - r1) / d;
    assert (r2 - r1) / d >= 0.0;
    assert (upper - lower) * f1 <= (upper - lower) * f2;
  }

  lemma InterpolateWithin(lower: real, upper: real, rank: real, before: int, cum: int)
    requires lower <= upper && (before as real) < rank <= cum as real
    ensures lower <= Interpolate(lower, upper, rank, before, cum) <= upper
  {
    var f := (rank - before as real) / (cum - before) as real;
    Fraction(rank - before as real, (cum - before) as real);
    WithinWidth(upper - lower, f);
  }

  lemma WithinWidth(w: real, f: real)
    requires w >= 0.0 && 0.0 < f <= 1.0
    ensures 0.0 <= w * f <= w
  {
    assert w * f <= w * 1.0;
  }

  /** The lowest bucket starts at 0, so its line falls when its bound is negative; that
      matters when something was counted in it. */
  predicate RisesFromZero(ordered: seq<Le>, buckets: map<Le, int>)
    requires Enumerates(ordered, buckets.Keys)
  {
    ordered != [] && ordered[0].Fin? && ordered[0].bound < 0.0 ==> buckets[ordered[0]] <= 0
  }

  /** Where a rank above zero lands on a bound, the bucket does not end below its start. */
  lemma {:induction false} BucketRises(buckets: map<Le, int>, ordered: seq<Le>, rank: real)
    requires Enumerates(ordered, buckets.Keys) && Sorted(ordered) && RisesFromZero(ordered, buckets)
    requires Lands(Counts(ordered, buckets), rank)
    requires ordered[FirstReaching(Counts(ordered, buckets), rank)].Fin?
    ensures var i := FirstReaching(Counts(ordered, buckets), rank);
            && LowerBound(ordered, i) <= ordered[i].bound
            && (i > 0 ==> ordered[i - 1].Fin? && LowerBound(ordered, i) == ordered[i - 1].bound)
  {
    var i := FirstReaching(Counts(ordered, buckets), rank);
    if i > 0 {
      assert KeyLeq(ordered[i - 1], ordered[i]);
    } else {
      assert buckets[ordered[0]] as real >= rank;
    }
  }

  lemma EstimateMonotone(buckets: map<Le, int>, ordered: seq<Le>, r1: real, r2: real)
    requires Enumerates(ordered, buckets.Keys) && Sorted(ordered) && RisesFromZero(ordered, buckets)
    requires Lands(Counts(ordered, buckets), r1) && Lands(Counts(ordered, buckets), r2) && r1 <= r2
    requires Estimate(ordered, Counts(ordered, buckets), r2).Some?
    ensures Estimate(ordered, Counts(ordered, buckets), r1).Some?
    ensures Estimate(ordered, Counts(ordered, buckets), r1).value <= Estimate(ordered, Counts(ordered, buckets), r2).value
  {
    hide Interpolate, RisesFromZero, Sorted, KeyLeq;
    var cs := Counts(ordered, buckets);
    var i1, i2 := FirstReaching(cs, r1), FirstReaching(cs, r2);
    ReachingMonotone(cs, r1, r2);
    if !ordered[i1].Fin? {
      HighestStays(ordered, i1, i2);
    } else if i1 == i2 {
      BucketRises(buckets, ordered, r1);
      hide LowerBound;
      InterpolateMonotone(LowerBound(ordered, i1), ordered[i1].bound, r1, r2, CountBefore(cs, i1), cs[i1]);
    } else {
      UpToBound(buckets, ordered, r1);
      hide LowerBound;
      if ordered[i2].Fin? {
        FromBound(buckets, ordered, r2, i1);
      } else {
        HighestIs(ordered, i2);
      }
    }
  }

  lemma {:induction false} UpToBound(buckets: map<Le, int>, ordered: seq<Le>, rank: real)
    requires Enumerates(ordered, buckets.Keys) && Sorted(ordered) && RisesFromZero(ordered, buckets)
    requires Lands(Counts(ordered, buckets), rank) && ordered[FirstReaching(Counts(ordered, buckets), rank)].Fin?
    ensures var r := Estimate(ordered, Counts(ordered, buckets), rank);
            r.Some? && r.value <= ordered[FirstReaching(Counts(ordered, buckets), rank)].bound
  {
    hide Interpolate, RisesFromZero, Sorted, KeyLeq;
    var cs := Counts(ordered, buckets);
    var i := FirstReaching(cs, rank);
    BucketRises(buckets, ordered, rank);
    InterpolateWithin(LowerBound(ordered, i), ordered[i].bound, rank, CountBefore(cs, i), cs[i]);
  }

  lemma {:induction false} FromBound(buckets: map<Le, int>, ordered: seq<Le>, rank: real, k: nat)
    requires Enumerates(ordered, buckets.Keys) && Sorted(ordered) && RisesFromZero(ordered, buckets)
    requires Lands(Counts(ordered, buckets), rank) && ordered[FirstReaching(Counts(ordered, buckets), rank)].Fin?
    requires k < FirstReaching(Counts(ordered, buckets), rank)
    ensures var r := Estimate(ordered, Counts(ordered, buckets), rank); r.Some? && ordered[k].Fin? && ordered[k].bound <= r.value
  {
    hide Interpolate, RisesFromZero, Sorted, KeyLeq;
    var cs := Counts(ordered, buckets);
    var i := FirstReaching(cs, rank);
    BucketRises(buckets, ordered, rank);
    InterpolateWithin(LowerBound(ordered, i), ordered[i].bound, rank, CountBefore(cs, i), cs[i]);
    BoundsClimb(ordered, k, i - 1);
  }

  lemma BoundsClimb(ordered: seq<Le>, i: nat, k: nat)
    requires Sorted(ordered) && i <= k < |ordered| && ordered[k].Fin?
    ensures ordered[i].Fin? && ordered[i].bound <= ordered[k].bound
  {
    assert i < k ==> KeyLeq(ordered[i], ordered[k]);
  }

  /** After the first label that is no finite bound none follows. */
  lemma {:induction false} HighestStays(ordered: seq<Le>, i: nat, k: nat)
    requires Sorted(ordered) && i <= k < |ordered| && !ordered[i].Fin?
    ensures !ordered[k].Fin? && HighestFinite(ordered, k) == HighestFinite(ordered, i)
    decreases k
  {
    if i < k {
      HighestStays(ordered, i, k - 1);
      assert KeyLeq(ordered[i], ordered[k]);
    }
  }

  /** A larger q never gives a smaller estimate, and if the larger one has an estimate, so
      has the smaller one: this holds for non-negative bounds, and more generally unless
      something was counted below a negative lowest bound. */
  lemma QuantileMonotone(q1: real, q2: real, buckets: map<Le, int>, ordered: seq<Le>, count: int)
    requires ValidRequest(q1, buckets, ordered, count) && ValidRequest(q2, buckets, ordered, count)
    requires NonNegativeBounds(buckets.Keys) || RisesFromZero(ordered, buckets)
    requires q1 <= q2
    requires Quantile(q2, buckets, ordered, count).Some?
    ensures Quantile(q1, buckets, ordered, count).Some?
    ensures Quantile(q1, buckets, ordered, count).value <= Quantile(q2, buckets, ordered, count).value
  {
    hide Rank, Estimate;
    RankLands(q1, buckets, ordered, count);
    RankLands(q2, buckets, ordered, count);
    RankMonotone(q1, q2, count);
    EstimateMonotone(buckets, ordered, Rank(q1, count), Rank(q2, count));
  }

  /** The estimates of one dictionary never fall as q grows. */
  ghost predicate MonotoneInQ(buckets: map<Le, int>, ordered: seq<Le>, count: int)
    requires Enumerates(ordered, buckets.Keys) && Sorted(ordered)
  {
    forall q1, q2 :: q1 <= q2 && Quantile(q1, buckets, ordered, count).Some? && Quantile(q2, buckets, ordered, count).Some? ==>
      Quantile(q1, buckets, ordered, count).value <= Quantile(q2, buckets, ordered, count).value
  }

  /** Exactly when a dictionary that is accepted at all is monotone in q: its lowest bound
      is not negative, or nothing was counted up to it. */
  lemma QuantileMonotoneIff(buckets: map<Le, int>, ordered: seq<Le>, count: int)
    requires ValidRequest(1.0, buckets, ordered, count)
    ensures MonotoneInQ(buckets, ordered, count) <==> RisesFromZero(ordered, buckets)
  {
    hide Rank, Estimate;
    if RisesFromZero(ordered, buckets) {
      forall q1, q2 | q1 <= q2 && Quantile(q1, buckets, ordered, count).Some? && Quantile(q2, buckets, ordered, count).Some?
        ensures Quantile(q1, buckets, ordered, count).value <= Quantile(q2, buckets, ordered, count).value
      {
        QuantileMonotone(q1, q2, buckets, ordered, count);
      }
    } else {
      var q := FallsInLowest(buckets, ordered, count);
      assert Quantile(q / 2.0, buckets, ordered, count).value > Quantile(q, buckets, ordered, count).value;
    }
  }

  /** In a populated bucket with a negative bound the estimate falls from half way to the
      end. */
  lemma FallsInLowest(buckets: map<Le, int>, ordered: seq<Le>, count: int) returns (q: real)
    requires ValidRequest(1.0, buckets, ordered, count) && !RisesFromZero(ordered, buckets)
    ensures q / 2.0 <= q
    ensures Quantile(q / 2.0, buckets, ordered, count).Some? && Quantile(q, buckets, ordered, count).Some?
    ensures Quantile(q / 2.0, buckets, ordered, count).value > Quantile(q, buckets, ordered, count).value
  {
    var c, cs := buckets[ordered[0]], Counts(ordered, buckets);
    LastIsPosInf(ordered, buckets.Keys);
    assert cs[0] == c && cs[|cs| - 1] == count && c <= count;
    q := c as real / count as real;
    RankOfShare(c, count, q);
    hide Rank, Interpolate;
    LandsInLowest(buckets, ordered, count, q);
    LandsInLowest(buckets, ordered, count, q / 2.0);
    LowestHalf(ordered[0].bound, c);
  }

  lemma RankOfShare(c: int, count: int, q: real)
    requires 0 < c <= count && q == c as real / count as real
    ensures 0.0 < q / 2.0 < q <= 1.0 && Rank(q, count) == c as real && Rank(q / 2.0, count) == c as real / 2.0
  {
    Fraction(c as real, count as real);
  }

  lemma LandsInLowest(buckets: map<Le, int>, ordered: seq<Le>, count: int, q: real)
    requires ValidRequest(1.0, buckets, ordered, count) && 0.0 < q <= 1.0
    requires ordered != [] && ordered[0].Fin? && 0.0 < Rank(q, count) <= buckets[ordered[0]] as real
    ensures Quantile(q, buckets, ordered, count) == Some(Interpolate(0.0, ordered[0].bound, Rank(q, count), 0, buckets[ordered[0]]))
  {
    hide Rank, Interpolate;
    RankLands(q, buckets, ordered, count);
    FirstReachingUnique(Counts(ordered, buckets), Rank(q, count), 0);
  }

  lemma LowestHalf(bound: real, c: int)
    requires bound < 0.0 && c > 0
    ensures Interpolate(0.0, bound, c as real / 2.0, 0, c) > Interpolate(0.0, bound, c as real, 0, c)
  {
    var d := c as real;
    assert (d / 2.0) / d == 0.5 && d / d == 1.0;
  }

  lemma RankMonotone(q1: real, q2: real, count: int)
    requires q1 <= q2 && count > 0
    ensures Rank(q1, count) <= Rank(q2, count)
  {
    assert (q2 - q1) * count as real >= 0.0;
  }

  /** The listing order of the dictionary does not matter when no two labels tie. */
  lemma {:induction false} QuantileOrderIndependent(q: real, buckets: map<Le, int>, les1: seq<Le>, les2: seq<Le>, count: int)
    requires Enumerates(les1, buckets.Keys) && Enumerates(les2, buckets.Keys) && NoTies(buckets.Keys)
    ensures Sorted(SortLes(les1)) && Enumerates(SortLes(les1), buckets.Keys)
    ensures Sorted(SortLes(les2)) && Enumerates(SortLes(les2), buckets.Keys)
    ensures Quantile(q, buckets, SortLes(les1), count) == Quantile(q, buckets, SortLes(les2), count)
  {
    SortKeepsListing(les1, buckets.Keys);
    SortKeepsListing(les2, buckets.Keys);
    SortedListingUnique(SortLes(les1), SortLes(les2), buckets.Keys);
  }

  // ------------------------------------------------- the order of a dictionary

  /** `classic_histogram_quantile` on a dictionary that lists its labels in this order. */
  function QuantileListed(q: real, buckets: map<Le, int>, les: seq<Le>, count: int): Option<real>
    requires Enumerates(les, buckets.Keys)
  {
    SortKeepsListing(les, buckets.Keys);
    Quantile(q, buckets, SortLes(les), count)
  }

  ghost predicate OrderMatters(q: real, buckets: map<Le, int>, count: int) {
    exists a, b :: Enumerates(a, buckets.Keys) && Enumerates(b, buckets.Keys)
                   && QuantileListed(q, buckets, a, count) != QuantileListed(q, buckets, b, count)
  }

  /** The guards of the request that do not depend on an order. */
  predicate Guarded(q: real, buckets: map<Le, int>, count: int) {
    0.0 < q <= 1.0 && count > 0 && |buckets| >= 2 && PosInf in buckets && buckets[PosInf] == count
  }

  predicate Before(x: Le, y: Le) {
    KeyLeq(x, y) && !KeyLeq(y, x)
  }

  /** Counts are at least -1 and do not fall from a label to one with a greater key; nothing
      is said about labels that tie. */
  ghost predicate Climbs(buckets: map<Le, int>) {
    && (forall x :: x in buckets ==> buckets[x] >= -1)
    && (forall x, y :: x in buckets && y in buckets && Before(x, y) ==> buckets[x] <= buckets[y])
  }

  /** Two labels with the same sort key have different counts. */
  ghost predicate UnlikeTies(buckets: map<Le, int>) {
    exists x, y :: x in buckets && y in buckets && Tied(x, y) && buckets[x] < buckets[y]
  }

  /** Some listing gives an estimate: a finite bucket reaches the rank, or there is a finite
      bound and the rank can land before every label that does not parse, because there is
      none, or at another spelling of infinity with a count no greater than theirs. */
  ghost predicate CanAnswer(q: real, buckets: map<Le, int>, count: int) {
    || FiniteReaches(q, buckets, count)
    || (HasFinite(buckets)
        && (AllParse(buckets)
            || exists x :: x in buckets && x.Infinite? && buckets[x] as real >= Rank(q, count) && BeforeUnparsable(x, buckets)))
  }

  ghost predicate BeforeUnparsable(x: Le, buckets: map<Le, int>)
    requires x in buckets
  {
    forall y :: y in buckets && y.Unparsable? ==> buckets[x] <= buckets[y]
  }

  /** Some listing gives none: tied labels have different counts, so that a listing is
      rejected, or no finite bucket reaches the rank and a label does not parse. */
  ghost predicate CanFail(q: real, buckets: map<Le, int>, count: int) {
    UnlikeTies(buckets) || (!FiniteReaches(q, buckets, count) && !AllParse(buckets))
  }

  /** Exactly when the answer depends on the order in which the dictionary lists its labels:
      the request is within the guards, its counts climb along the sort keys, and some listing
      can answer and some listing can fail. */
  lemma {:induction false} OrderMattersIff(q: real, buckets: map<Le, int>, count: int)
    ensures OrderMatters(q, buckets, count) <==>
              Guarded(q, buckets, count) && Climbs(buckets) && CanAnswer(q, buckets, count) && CanFail(q, buckets, count)
  {
    hide Rank, Estimate, Quantile, Guarded, Climbs, CanAnswer, CanFail, Sorted;
    if OrderMatters(q, buckets, count) {
      var a, b :| Enumerates(a, buckets.Keys) && Enumerates(b, buckets.Keys)
                  && QuantileListed(q, buckets, a, count) != QuantileListed(q, buckets, b, count);
      SortKeepsListing(a, buckets.Keys);
      SortKeepsListing(b, buckets.Keys);
      if Quantile(q, buckets, SortLes(a), count).Some? {
        DifferenceMeans(q, buckets, SortLes(a), SortLes(b), count);
      } else {
        DifferenceMeans(q, buckets, SortLes(b), SortLes(a), count);
      }
    }
    if Guarded(q, buckets, count) && Climbs(buckets) && CanAnswer(q, buckets, count) && CanFail(q, buckets, count) {
      var up, down := UpAndDown(q, buckets, count);
      SortedIsFixed(up);
      SortedIsFixed(down);
      assert QuantileListed(q, buckets, up, count) != QuantileListed(q, buckets, down, count);
    }
  }

  /** An estimate that another listing does not give. */
  lemma DifferenceMeans(q: real, buckets: map<Le, int>, a: seq<Le>, b: seq<Le>, count: int)
    requires Enumerates(a, buckets.Keys) && Enumerates(b, buckets.Keys) && Sorted(a) && Sorted(b)
    requires Quantile(q, buckets, a, count).Some? && Quantile(q, buckets, a, count) != Quantile(q, buckets, b, count)
    ensures Guarded(q, buckets, count) && Climbs(buckets) && CanAnswer(q, buckets, count) && CanFail(q, buckets, count)
  {
    hide Rank, Estimate, Climbs, UnlikeTies, Guarded, FiniteReaches, AllParse, CanAnswer, Sorted;
    AcceptedClimbs(q, buckets, a, count);
    AnswerMeans(q, buckets, a, count);
    if !CanFail(q, buckets, count) {
      LevelTiesAccept(q, buckets, b, count);
      ListingsAgree(q, buckets, a, b, count);
    }
  }

  /** A listing with an estimate. */
  lemma AnswerMeans(q: real, buckets: map<Le, int>, ordered: seq<Le>, count: int)
    requires ValidRequest(q, buckets, ordered, count) && Quantile(q, buckets, ordered, count).Some?
    ensures CanAnswer(q, buckets, count)
  {
    hide Rank, Estimate, Quantile;
    QuantileDefinedIff(q, buckets, ordered, count);
    RankLands(q, buckets, ordered, count);
    if !FiniteReaches(q, buckets, count) && !AllParse(buckets) {
      var cs, i := Counts(ordered, buckets), Landing(q, buckets, ordered, count);
      var y :| y in buckets && y.Unparsable?;
      LandsBeforeUnparsable(buckets, ordered, i, y);
      assert cs[i] == buckets[ordered[i]] && ordered[i] in buckets;
    }
  }

  lemma LandsBeforeUnparsable(buckets: map<Le, int>, ordered: seq<Le>, i: nat, y: Le)
    requires Enumerates(ordered, buckets.Keys) && Sorted(ordered) && Monotonic(Counts(ordered, buckets))
    requires i < |ordered| && !Blocked(ordered, i) && y in buckets && y.Unparsable?
    ensures ordered[i] in buckets && (ordered[i].Fin? || (ordered[i].Infinite? && BeforeUnparsable(ordered[i], buckets)))
  {
    var cs := Counts(ordered, buckets);
    forall z | z in buckets && z.Unparsable? ensures buckets[ordered[i]] <= buckets[z] && !ordered[i].PosInf? {
      var k :| 0 <= k < |ordered| && ordered[k] == z;
      assert i < k;
      assert cs[i] <= cs[k] && cs[k] == buckets[z] && KeyLeq(ordered[i], ordered[k]);
    }
    assert ordered[i] in buckets.Keys;
  }

  lemma AcceptedClimbs(q: real, buckets: map<Le, int>, ordered: seq<Le>, count: int)
    requires Enumerates(ordered, buckets.Keys) && Sorted(ordered) && Accepted(q, buckets, ordered, count)
    ensures Guarded(q, buckets, count) && Climbs(buckets)
  {
    var cs := Counts(ordered, buckets);
    forall x | x in buckets ensures buckets[x] >= -1 {
      var i :| 0 <= i < |ordered| && ordered[i] == x;
      assert cs[i] == buckets[x];
    }
    forall x, y | x in buckets && y in buckets && Before(x, y) ensures buckets[x] <= buckets[y] {
      var i :| 0 <= i < |ordered| && ordered[i] == x;
      var j :| 0 <= j < |ordered| && ordered[j] == y;
      InKeyOrder(ordered, i, j);
      assert cs[i] == buckets[x] && cs[j] == buckets[y];
    }
  }

  lemma InKeyOrder(ordered: seq<Le>, i: nat, j: nat)
    requires Sorted(ordered) && i < |ordered| && j < |ordered| && Before(ordered[i], ordered[j])
    ensures i < j
  {
  }

  /** When tied labels have equal counts every listing of a climbing dictionary is accepted. */
  lemma LevelTiesAccept(q: real, buckets: map<Le, int>, ordered: seq<Le>, count: int)
    requires Enumerates(ordered, buckets.Keys) && Sorted(ordered)
    requires Guarded(q, buckets, count) && Climbs(buckets) && !UnlikeTies(buckets)
    ensures Accepted(q, buckets, ordered, count)
  {
    hide KeyLeq;
    var cs := Counts(ordered, buckets);
    forall i | 0 <= i < |cs| ensures -1 <= cs[i] {
      assert ordered[i] in buckets.Keys;
    }
    forall i, j | 0 <= i < j < |cs| ensures cs[i] <= cs[j] {
      assert ordered[i] in buckets.Keys && ordered[j] in buckets.Keys && KeyLeq(ordered[i], ordered[j]);
      assert Before(ordered[i], ordered[j]) || Tied(ordered[j], ordered[i]);
    }
  }

  // Two accepted listings of one dictionary show the same sort keys and counts in the same
  // places.

  /** What the sort sees of a label, and its count. */
  datatype Mark = Mark(group: int, bound: real, count: int)

  function MarkOf(x: Le, count: int): Mark {
    match x
    case Fin(bound, _) => Mark(0, bound, count)
    case PosInf => Mark(2, 0.0, count)
    case _ => Mark(1, 0.0, count)
  }

  predicate MarkLeq(a: Mark, b: Mark) {
    a.group < b.group || (a.group == b.group && (a.bound < b.bound || (a.bound == b.bound && a.count <= b.count)))
  }

  function Marks(ordered: seq<Le>, buckets: map<Le, int>): (r: seq<Mark>)
    requires forall x :: x in ordered ==> x in buckets
    ensures |r| == |ordered| && forall i :: 0 <= i < |r| ==> r[i] == MarkOf(ordered[i], buckets[ordered[i]])
  {
    seq(|ordered|, i requires 0 <= i < |ordered| => MarkOf(ordered[i], buckets[ordered[i]]))
  }

  predicate MarksClimb(s: seq<Mark>) {
    forall i, j :: 0 <= i < j < |s| ==> MarkLeq(s[i], s[j])
  }

  lemma AcceptedMarksClimb(buckets: map<Le, int>, ordered: seq<Le>)
    requires Enumerates(ordered, buckets.Keys) && Sorted(ordered) && Monotonic(Counts(ordered, buckets))
    ensures MarksClimb(Marks(ordered, buckets))
  {
    var cs, ms := Counts(ordered, buckets), Marks(ordered, buckets);
    forall i, j | 0 <= i < j < |ms| ensures MarkLeq(ms[i], ms[j]) {
      assert KeyLeq(ordered[i], ordered[j]) && cs[i] <= cs[j];
    }
  }

  lemma {:induction false} ClimbingUnique(a: seq<Mark>, b: seq<Mark>)
    requires multiset(a) == multiset(b) && MarksClimb(a) && MarksClimb(b)
    ensures a == b
    decreases |a|
  {
    assert |a| == |multiset(a)| == |multiset(b)| == |b|;
    if a != [] {
      LeastFirst(a, b);
      LeastFirst(b, a);
      assert a[0] == b[0];
      hide MarkLeq;
      TailsMatch(a, b);
      ClimbingUnique(a[1..], b[1..]);
      assert a == [a[0]] + a[1..] && b == [b[0]] + b[1..];
    }
  }

  lemma LeastFirst(a: seq<Mark>, b: seq<Mark>)
    requires multiset(a) == multiset(b) && MarksClimb(a) && a != [] && b != []
    ensures MarkLeq(a[0], b[0])
  {
    assert b[0] in multiset(a);
    var j :| 0 <= j < |a| && a[j] == b[0];
  }

  lemma TailsMatch(a: seq<Mark>, b: seq<Mark>)
    requires multiset(a) == multiset(b) && a != [] && b != [] && a[0] == b[0]
    ensures multiset(a[1..]) == multiset(b[1..])
  {
    assert a == [a[0]] + a[1..] && b == [b[0]] + b[1..];
    assert multiset(a[1..]) == multiset(a) - multiset{a[0]} && multiset(b[1..]) == multiset(b) - multiset{a[0]};
  }

  /** Rearranging the labels rearranges the marks. */
  lemma {:induction false} MarksRearranged(a: seq<Le>, b: seq<Le>, buckets: map<Le, int>)
    requires multiset(a) == multiset(b) && (forall x :: x in a ==> x in buckets) && forall x :: x in b ==> x in buckets
    ensures multiset(Marks(a, buckets)) == multiset(Marks(b, buckets))
    decreases |a|
  {
    hide MarkOf;
    assert |a| == |multiset(a)| == |multiset(b)| == |b|;
    if a != [] {
      assert a[0] in multiset(b);
      var k :| 0 <= k < |b| && b[k] == a[0];
      WithoutOne(a, b, k);
      MarksWithout(b, k, buckets);
      MarksWithout(a, 0, buckets);
      assert a[..0] + a[0 + 1..] == a[1..];
      MarksRearranged(a[1..], b[..k] + b[k + 1..], buckets);
    }
  }

  lemma WithoutOne(a: seq<Le>, b: seq<Le>, k: nat)
    requires multiset(a) == multiset(b) && a != [] && k < |b| && b[k] == a[0]
    ensures multiset(a[1..]) == multiset(b[..k] + b[k + 1..])
  {
    assert a == [a[0]] + a[1..] && b == b[..k] + [b[k]] + b[k + 1..];
    assert multiset(a[1..]) == multiset(a) - multiset{a[0]};
    assert multiset(b[..k] + b[k + 1..]) == multiset(b) - multiset{a[0]};
  }

  lemma MarksWithout(s: seq<Le>, k: nat, buckets: map<Le, int>)
    requires k < |s| && forall x :: x in s ==> x in buckets
    ensures multiset(Marks(s, buckets)) == multiset(Marks(s[..k] + s[k + 1..], buckets)) + multiset{MarkOf(s[k], buckets[s[k]])}
  {
    hide MarkOf;
    var ms := Marks(s, buckets);
    assert Marks(s[..k] + s[k + 1..], buckets) == ms[..k] + ms[k + 1..];
    assert ms == ms[..k] + [ms[k]] + ms[k + 1..];
  }

  /** Two listings of the same keys are rearrangements of each other. */
  lemma ListingsRearranged(a: seq<Le>, b: seq<Le>, keys: set<Le>)
    requires Enumerates(a, keys) && Enumerates(b, keys)
    ensures multiset(a) == multiset(b)
  {
    forall x ensures multiset(a)[x] == multiset(b)[x] {
      OnceEach(a, x);
      OnceEach(b, x);
      assert x in a <==> x in multiset(a);
      assert x in b <==> x in multiset(b);
    }
  }

  lemma SameMarks(buckets: map<Le, int>, a: seq<Le>, b: seq<Le>)
    requires Enumerates(a, buckets.Keys) && Enumerates(b, buckets.Keys) && Sorted(a) && Sorted(b)
    requires Monotonic(Counts(a, buckets)) && Monotonic(Counts(b, buckets))
    ensures Counts(a, buckets) == Counts(b, buckets) && AlikeByKey(a, b)
  {
    hide Sorted, Monotonic, Distinct, KeyLeq;
    AcceptedMarksClimb(buckets, a);
    AcceptedMarksClimb(buckets, b);
    ListingsRearranged(a, b, buckets.Keys);
    MarksRearranged(a, b, buckets);
    ClimbingUnique(Marks(a, buckets), Marks(b, buckets));
    MarksShow(buckets, a, b);
  }

  lemma MarksShow(buckets: map<Le, int>, a: seq<Le>, b: seq<Le>)
    requires (forall x :: x in a ==> x in buckets) && (forall x :: x in b ==> x in buckets) && Marks(a, buckets) == Marks(b, buckets)
    ensures Counts(a, buckets) == Counts(b, buckets) && AlikeByKey(a, b)
  {
    var ma, mb := Marks(a, buckets), Marks(b, buckets);
    assert |a| == |ma| == |mb| == |b|;
    forall i | 0 <= i < |a| ensures Counts(a, buckets)[i] == Counts(b, buckets)[i] && AlikeLabel(a[i], b[i]) {
      assert ma[i] == mb[i];
      SameMark(a[i], b[i], buckets[a[i]], buckets[b[i]]);
    }
  }

  lemma SameMark(x: Le, y: Le, c: int, d: int)
    requires MarkOf(x, c) == MarkOf(y, d)
    ensures c == d && AlikeLabel(x, y)
  {
  }

  predicate AlikeLabel(x: Le, y: Le) {
    (x.Fin? <==> y.Fin?) && (x.Fin? ==> x.bound == y.bound)
  }

  predicate AlikeByKey(a: seq<Le>, b: seq<Le>) {
    |a| == |b| && forall i :: 0 <= i < |a| ==> AlikeLabel(a[i], b[i])
  }

  /** Two accepted listings of one dictionary agree when a finite bucket reaches the rank, or
      every label parses. */
  lemma ListingsAgree(q: real, buckets: map<Le, int>, a: seq<Le>, b: seq<Le>, count: int)
    requires ValidRequest(q, buckets, a, count) && ValidRequest(q, buckets, b, count)
    requires FiniteReaches(q, buckets, count) || AllParse(buckets)
    ensures Quantile(q, buckets, a, count) == Quantile(q, buckets, b, count)
  {
    SameMarks(buckets, a, b);
    hide Rank, Estimate;
    RankLands(q, buckets, a, count);
    RankLands(q, buckets, b, count);
    NeverBlocked(q, buckets, a, count);
    NeverBlocked(q, buckets, b, count);
    hide Sorted, Monotonic, FiniteReaches, AllParse;
    EstimatesAgree(a, b, Counts(a, buckets), Rank(q, count));
  }

  lemma NeverBlocked(q: real, buckets: map<Le, int>, ordered: seq<Le>, count: int)
    requires ValidRequest(q, buckets, ordered, count) && (FiniteReaches(q, buckets, count) || AllParse(buckets))
    ensures var i := Landing(q, buckets, ordered, count); ordered[i].Fin? || !Blocked(ordered, i)
  {
    hide Rank;
    RankLands(q, buckets, ordered, count);
    var i := Landing(q, buckets, ordered, count);
    if AllParse(buckets) {
      assert forall j :: 0 <= j < |ordered| ==> ordered[j] in buckets.Keys;
    } else if !ordered[i].Fin? {
      FiniteBelow(buckets, ordered, Rank(q, count));
      assert false;
    }
  }

  lemma {:induction false} EstimatesAgree(a: seq<Le>, b: seq<Le>, cs: seq<int>, rank: real)
    requires AlikeByKey(a, b) && |a| == |cs| && Lands(cs, rank)
    requires var i := FirstReaching(cs, rank); (a[i].Fin? || !Blocked(a, i)) && (b[i].Fin? || !Blocked(b, i))
    ensures Estimate(a, cs, rank) == Estimate(b, cs, rank)
  {
    hide Interpolate, Blocked;
    var i := FirstReaching(cs, rank);
    assert AlikeLabel(a[i], b[i]);
    if a[i].Fin? {
      assert i > 0 ==> AlikeLabel(a[i - 1], b[i - 1]);
    } else {
      HighestAgree(a, b, i);
    }
  }

  lemma {:induction false} HighestAgree(a: seq<Le>, b: seq<Le>, i: nat)
    requires AlikeByKey(a, b) && i <= |a|
    ensures HighestFinite(a, i) == HighestFinite(b, i)
    decreases i
  {
    if i > 0 {
      HighestAgree(a, b, i - 1);
      assert AlikeLabel(a[i - 1], b[i - 1]);
    }
  }

  /** Two sorted listings of such a dictionary, one with an estimate and one without. */
  lemma UpAndDown(q: real, buckets: map<Le, int>, count: int) returns (up: seq<Le>, down: seq<Le>)
    requires Guarded(q, buckets, count) && Climbs(buckets) && CanAnswer(q, buckets, count) && CanFail(q, buckets, count)
    ensures Enumerates(up, buckets.Keys) && Sorted(up) && Enumerates(down, buckets.Keys) && Sorted(down)
    ensures Quantile(q, buckets, up, count).Some? && Quantile(q, buckets, down, count) == None
  {
    hide Rank, Estimate, Climbs, Guarded, Sorted, Ascends, CanAnswer, FiniteReaches, AllParse, UnlikeTies, Monotonic;
    up := Ascending(SomeListing(buckets.Keys), buckets);
    AscendingListing(SomeListing(buckets.Keys), buckets);
    AscendingAccepted(q, buckets, up, count);
    AscendingAnswers(q, buckets, up, count);
    if UnlikeTies(buckets) {
      down := Unordered(up, buckets);
    } else {
      down := BlockedEarly(q, buckets, up, count);
    }
  }

  /** By key, by count where the keys tie, and where the counts are equal too the labels that
      do not parse last. */
  predicate NotAbove(x: Le, y: Le, buckets: map<Le, int>)
    requires x in buckets && y in buckets
  {
    KeyLeq(x, y) && (KeyLeq(y, x) ==> buckets[x] < buckets[y] || (buckets[x] == buckets[y] && (x.Unparsable? ==> y.Unparsable?)))
  }

  function InsertByCount(x: Le, s: seq<Le>, buckets: map<Le, int>): (r: seq<Le>)
    requires x in buckets && forall y :: y in s ==> y in buckets
    ensures multiset(r) == multiset(s) + multiset{x}
  {
    if s == [] || NotAbove(x, s[0], buckets) then [x] + s else
      assert s == [s[0]] + s[1..];
      [s[0]] + InsertByCount(x, s[1..], buckets)
  }

  function Ascending(les: seq<Le>, buckets: map<Le, int>): (r: seq<Le>)
    requires forall y :: y in les ==> y in buckets
    ensures multiset(r) == multiset(les)
    ensures forall y :: y in r ==> y in buckets
  {
    if les == [] then [] else
      assert les == [les[0]] + les[1..];
      var rest := Ascending(les[1..], buckets);
      var r := InsertByCount(les[0], rest, buckets);
      assert forall y :: y in r ==> y in multiset(r);
      r
  }

  ghost predicate Ascends(s: seq<Le>, buckets: map<Le, int>)
    requires forall y :: y in s ==> y in buckets
  {
    forall i, j :: 0 <= i < j < |s| ==> NotAbove(s[i], s[j], buckets)
  }

  lemma NotAboveOrder(x: Le, y: Le, z: Le, buckets: map<Le, int>)
    requires x in buckets && y in buckets && z in buckets
    ensures NotAbove(x, y, buckets) || NotAbove(y, x, buckets)
    ensures NotAbove(x, y, buckets) && NotAbove(y, z, buckets) ==> NotAbove(x, z, buckets)
  {
  }

  lemma {:induction false} InsertAscends(x: Le, s: seq<Le>, buckets: map<Le, int>)
    requires x in buckets && (forall y :: y in s ==> y in buckets) && Ascends(s, buckets)
    ensures var r := InsertByCount(x, s, buckets);
            (forall y :: y in r ==> y in buckets) && Ascends(r, buckets)
  {
    hide NotAbove, Ascends;
    var r := InsertByCount(x, s, buckets);
    forall y | y in r ensures y in buckets {
      assert y in multiset(r);
    }
    if s == [] {
      AscendsFrom(x, s, buckets);
    } else if NotAbove(x, s[0], buckets) {
      forall i | 0 <= i < |s| ensures NotAbove(x, s[i], buckets) {
        AscendsPair(s, 0, i, buckets);
        NotAboveOrder(x, s[0], s[i], buckets);
      }
      AscendsFrom(x, s, buckets);
    } else {
      var rest := InsertByCount(x, s[1..], buckets);
      AscendsTail(s, buckets);
      InsertAscends(x, s[1..], buckets);
      NotAboveOrder(x, s[0], x, buckets);
      forall i | 0 <= i < |rest| ensures NotAbove(s[0], rest[i], buckets) {
        assert rest[i] in multiset(rest);
        assert rest[i] == x || rest[i] in s[1..];
        if rest[i] != x {
          var k :| 0 <= k < |s[1..]| && s[1..][k] == rest[i];
          AscendsPair(s, 0, k + 1, buckets);
        }
      }
      AscendsFrom(s[0], rest, buckets);
    }
  }

  lemma AscendsPair(s: seq<Le>, i: nat, j: nat, buckets: map<Le, int>)
    requires (forall y :: y in s ==> y in buckets) && Ascends(s, buckets) && i <= j < |s|
    ensures NotAbove(s[i], s[j], buckets)
  {
  }

  lemma AscendsTail(s: seq<Le>, buckets: map<Le, int>)
    requires s != [] && (forall y :: y in s ==> y in buckets) && Ascends(s, buckets)
    ensures Ascends(s[1..], buckets)
  {
    hide NotAbove;
  }

  lemma AscendsFrom(x: Le, s: seq<Le>, buckets: map<Le, int>)
    requires x in buckets && (forall y :: y in s ==> y in buckets) && Ascends(s, buckets)
    requires forall i :: 0 <= i < |s| ==> NotAbove(x, s[i], buckets)
    ensures Ascends([x] + s, buckets)
  {
    hide NotAbove;
  }

  lemma {:induction false} AscendingAscends(les: seq<Le>, buckets: map<Le, int>)
    requires forall y :: y in les ==> y in buckets
    ensures Ascends(Ascending(les, buckets), buckets)
  {
    hide Ascends;
    if les == [] {
      NothingAscends(buckets);
    } else {
      AscendingAscends(les[1..], buckets);
      InsertAscends(les[0], Ascending(les[1..], buckets), buckets);
    }
  }

  lemma NothingAscends(buckets: map<Le, int>)
    ensures Ascends([], buckets)
  {
  }

  lemma {:induction false} AscendingListing(les: seq<Le>, buckets: map<Le, int>)
    requires Enumerates(les, buckets.Keys)
    ensures var r := Ascending(les, buckets);
            Enumerates(r, buckets.Keys) && Sorted(r) && Ascends(r, buckets)
  {
    var r := Ascending(les, buckets);
    AscendingAscends(les, buckets);
    SameElementsList(les, r, buckets.Keys);
    forall i, j | 0 <= i < j < |r| ensures KeyLeq(r[i], r[j]) {
      assert NotAbove(r[i], r[j], buckets);
    }
  }

  lemma AscendingAccepted(q: real, buckets: map<Le, int>, up: seq<Le>, count: int)
    requires Enumerates(up, buckets.Keys) && Sorted(up) && Ascends(up, buckets)
    requires Guarded(q, buckets, count) && Climbs(buckets)
    ensures Accepted(q, buckets, up, count)
  {
    var cs := Counts(up, buckets);
    forall i | 0 <= i < |cs| ensures -1 <= cs[i] {
      assert up[i] in buckets.Keys;
    }
    forall i, j | 0 <= i < j < |cs| ensures cs[i] <= cs[j] {
      assert up[i] in buckets.Keys && up[j] in buckets.Keys && NotAbove(up[i], up[j], buckets);
      assert !KeyLeq(up[j], up[i]) ==> Before(up[i], up[j]);
    }
  }

  /** Listed in this way a dictionary that can answer does. */
  lemma AscendingAnswers(q: real, buckets: map<Le, int>, up: seq<Le>, count: int)
    requires ValidRequest(q, buckets, up, count) && Ascends(up, buckets) && CanAnswer(q, buckets, count)
    ensures Quantile(q, buckets, up, count).Some?
  {
    hide Rank, Quantile, Estimate, FiniteReaches, Sorted, Monotonic, Ascends;
    QuantileDefinedIff(q, buckets, up, count);
    if !FiniteReaches(q, buckets, count) && !AllParse(buckets) {
      var x :| x in buckets && x.Infinite? && buckets[x] as real >= Rank(q, count) && BeforeUnparsable(x, buckets);
      RankLands(q, buckets, up, count);
      var cs := Counts(up, buckets);
      var m :| 0 <= m < |up| && up[m] == x;
      assert cs[m] as real >= Rank(q, count);
      assert m >= Landing(q, buckets, up, count);
      forall j | 0 <= j <= Landing(q, buckets, up, count) ensures !up[j].Unparsable? {
        assert up[j] in buckets.Keys;
        if up[j].Unparsable? {
          InfiniteFirst(up, buckets, m, j);
        }
      }
    }
  }

  lemma InfiniteFirst(up: seq<Le>, buckets: map<Le, int>, m: nat, j: nat)
    requires (forall y :: y in up ==> y in buckets) && Ascends(up, buckets) && m < |up| && j < |up|
    requires up[m].Infinite? && up[j].Unparsable? && buckets[up[m]] <= buckets[up[j]]
    ensures m < j
  {
  }

  /** Exchanging two tied labels with different counts gives a listing that is rejected. */
  lemma Unordered(up: seq<Le>, buckets: map<Le, int>) returns (down: seq<Le>)
    requires Enumerates(up, buckets.Keys) && Sorted(up) && Ascends(up, buckets) && UnlikeTies(buckets)
    ensures Enumerates(down, buckets.Keys) && Sorted(down) && !Monotonic(Counts(down, buckets))
  {
    hide Sorted, Ascends;
    var x, y :| x in buckets && y in buckets && Tied(x, y) && buckets[x] < buckets[y];
    var i :| 0 <= i < |up| && up[i] == x;
    var j :| 0 <= j < |up| && up[j] == y;
    AscendingPair(up, buckets, i, j);
    down := up[i := y][j := x];
    SwapSorted(up, i, j);
    SwapLists(up, buckets.Keys, i, j);
    assert Counts(down, buckets)[i] > Counts(down, buckets)[j];
  }

  lemma AscendingPair(up: seq<Le>, buckets: map<Le, int>, i: nat, j: nat)
    requires (forall y :: y in up ==> y in buckets) && Ascends(up, buckets) && i < |up| && j < |up|
    requires Tied(up[i], up[j]) && buckets[up[i]] < buckets[up[j]]
    ensures i < j
  {
  }

  /** Exchanging the label where the rank lands with one that does not parse, at equal counts,
      gives a listing that is accepted but has no estimate. */
  lemma BlockedEarly(q: real, buckets: map<Le, int>, up: seq<Le>, count: int) returns (down: seq<Le>)
    requires ValidRequest(q, buckets, up, count) && Quantile(q, buckets, up, count).Some?
    requires !UnlikeTies(buckets) && !FiniteReaches(q, buckets, count) && !AllParse(buckets)
    ensures Enumerates(down, buckets.Keys) && Sorted(down) && Quantile(q, buckets, down, count) == None
  {
    hide Rank, Estimate, Quantile, FiniteReaches;
    QuantileDefinedIff(q, buckets, up, count);
    RankLands(q, buckets, up, count);
    var i := Landing(q, buckets, up, count);
    var y :| y in buckets && y.Unparsable?;
    LandsBeforeUnparsable(buckets, up, i, y);
    LandsBeyond(q, buckets, up, count);
    var j :| 0 <= j < |up| && up[j] == y;
    assert i < j && Tied(up[i], up[j]) && Tied(up[j], up[i]);
    assert buckets[up[i]] == buckets[y];
    down := up[i := y][j := up[i]];
    hide Sorted, UnlikeTies, KeyLeq;
    SwapSorted(up, i, j);
    SwapLists(up, buckets.Keys, i, j);
    SwapCounts(buckets, up, down, i, j);
    assert down[i].Unparsable?;
    assert Accepted(q, buckets, down, count) && Landing(q, buckets, down, count) == i;
    QuantileDefinedIff(q, buckets, down, count);
  }

  lemma LandsBeyond(q: real, buckets: map<Le, int>, ordered: seq<Le>, count: int)
    requires ValidRequest(q, buckets, ordered, count) && !FiniteReaches(q, buckets, count)
    ensures !ordered[Landing(q, buckets, ordered, count)].Fin?
  {
    hide Rank;
    RankLands(q, buckets, ordered, count);
    var i := Landing(q, buckets, ordered, count);
    assert ordered[i] in buckets.Keys && Counts(ordered, buckets)[i] == buckets[ordered[i]];
  }

  lemma SwapCounts(buckets: map<Le, int>, up: seq<Le>, down: seq<Le>, i: nat, j: nat)
    requires Enumerates(up, buckets.Keys) && Enumerates(down, buckets.Keys) && i < j < |up|
    requires down == up[i := up[j]][j := up[i]]
    requires up[i] in buckets && up[j] in buckets && buckets[up[i]] == buckets[up[j]]
    ensures Counts(down, buckets) == Counts(up, buckets)
  {
  }

  lemma SwapSorted(s: seq<Le>, i: nat, j: nat)
    requires Sorted(s) && i < j < |s| && Tied(s[i], s[j])
    ensures Sorted(s[i := s[j]][j := s[i]])
  {
    hide KeyLeq;
    var r := s[i := s[j]][j := s[i]];
    forall k, l | 0 <= k < l < |r| ensures KeyLeq(r[k], r[l]) {
      assert KeyLeq(s[k], s[l]);
      SameKey(s[k], r[k], s[l], r[l]);
    }
  }

  lemma SameKey(a: Le, b: Le, c: Le, d: Le)
    requires (a == b || Tied(a, b)) && (c == d || Tied(c, d))
    ensures KeyLeq(a, c) == KeyLeq(b, d)
  {
  }

  lemma {:induction false} SwapLists(s: seq<Le>, keys: set<Le>, i: nat, j: nat)
    requires Enumerates(s, keys) && i < j < |s|
    ensures Enumerates(s[i := s[j]][j := s[i]], keys)
  {
    var r := s[i := s[j]][j := s[i]];
    forall z | z in keys ensures z in r {
      var k :| 0 <= k < |s| && s[k] == z;
      assert r[if k == i then j else if k == j then i else k] == z;
    }
  }

  /** Sorting a sorted list changes nothing. */
  lemma {:induction false} SortedIsFixed(s: seq<Le>)
    requires Sorted(s)
    ensures SortLes(s) == s
  {
    if s != [] {
      SortedIsFixed(s[1..]);
      assert |s| > 1 ==> KeyLeq(s[0], s[1]);
      assert s == [s[0]] + s[1..];
    }
  }

  /** The smallest case: one bound in two spellings. Listed one way the dictionary is accepted,
      listed the other way it is rejected. */
  lemma QuantileOrderCanMatter() returns (buckets: map<Le, int>, les1: seq<Le>, les2: seq<Le>)
    ensures Enumerates(les1, buckets.Keys) && Enumerates(les2, buckets.Keys)
    ensures Sorted(les1) && Sorted(les2)
    ensures Quantile(0.5, buckets, les1, 8) == Some(0.5)
    ensures Quantile(0.5, buckets, les2, 8) == None
  {
    hide Estimate, FirstReaching, Rank, Interpolate, Lands;
    var a, b := Fin(0.5, "0.5"), Fin(0.5, "0.50");
    assert |a.text| != |b.text|;
    les1, les2 := [a, b, PosInf], [b, a, PosInf];
    buckets := map[a := 4, b := 5, PosInf := 8];
    SortedLength(les1, buckets.Keys);
    assert Counts(les1, buckets) == [4, 5, 8];
    assert Counts(les2, buckets)[0] > Counts(les2, buckets)[1];
    RankLands(0.5, buckets, les1, 8);
    HalfOfEight(les1, Counts(les1, buckets));
  }

  lemma HalfOfEight(ordered: seq<Le>, cs: seq<int>)
    requires |ordered| == |cs| && cs != [] && cs[0] == 4 && ordered[0] == Fin(0.5, "0.5")
    requires Lands(cs, Rank(0.5, 8))
    ensures Estimate(ordered, cs, Rank(0.5, 8)) == Some(0.5)
  {
    assert Rank(0.5, 8) == 4.0;
    FirstReachingUnique(cs, 4.0, 0);
  }

  // ------------------------------------------------------------ scaling counts

  function Scaled(k: int, buckets: map<Le, int>): (r: map<Le, int>)
    ensures r.Keys == buckets.Keys
  {
    map x | x in buckets :: k * buckets[x]
  }

  lemma ScaledProduct(k: int, a: int, b: int)
    requires k > 0
    ensures a <= b <==> k * a <= k * b
    ensures a < b <==> k * a < k * b
    ensures (k * a) as real == k as real * a as real
  {
    if a < b {
      assert k * (b - a) > 0;
    } else if b < a {
      assert k * (a - b) > 0;
    }
    ProductAsReal(k, a);
  }

  lemma {:induction false} ProductAsReal(k: nat, a: int)
    ensures (k * a) as real == k as real * a as real
  {
    if k > 0 {
      ProductAsReal(k - 1, a);
      assert k * a == (k - 1) * a + a;
      assert k as real == (k - 1) as real + 1.0;
    }
  }

  lemma {:induction false} ScaledReaching(cs: seq<int>, ks: seq<int>, rank: real, scaledRank: real)
    requires |cs| == |ks|
    requires forall i :: 0 <= i < |cs| ==> (cs[i] as real >= rank <==> ks[i] as real >= scaledRank)
    ensures FirstReaching(ks, scaledRank) == FirstReaching(cs, rank)
  {
    var i, j := FirstReaching(cs, rank), FirstReaching(ks, scaledRank);
    assert j < |ks| ==> cs[j] as real >= rank;
    assert i < |cs| ==> ks[i] as real >= scaledRank;
  }

  lemma ScaledRanks(k: int, cs: seq<int>, ks: seq<int>, rank: real)
    requires k > 0 && KTimesEach(k, cs, ks)
    ensures forall i :: 0 <= i < |cs| ==> (cs[i] as real >= rank <==> ks[i] as real >= k as real * rank)
  {
    forall i | 0 <= i < |cs| ensures cs[i] as real >= rank <==> ks[i] as real >= k as real * rank {
      ScaledCount(k, cs[i], rank);
    }
  }

  lemma ScaledCount(k: int, c: int, rank: real)
    requires k > 0
    ensures c as real >= rank <==> (k * c) as real >= k as real * rank
  {
    ProductAsReal(k, c);
    ScaleOrder(k as real, c as real, rank);
  }

  lemma ScaleOrder(k: real, a: real, b: real)
    requires k > 0.0
    ensures a >= b <==> k * a >= k * b
  {
    if a < b {
      assert k * (b - a) > 0.0;
    } else {
      assert k * (a - b) >= 0.0;
    }
  }

  lemma ScaledInterpolate(k: int, lower: real, upper: real, rank: real, before: int, cum: int)
    requires k > 0 && before < cum
    ensures k * before < k * cum
    ensures Interpolate(lower, upper, k as real * rank, k * before, k * cum) == Interpolate(lower, upper, rank, before, cum)
  {
    ScaledProduct(k, before, cum);
    ScaledProduct(k, cum - before, 0);
    var kr := k as real;
    assert (k * cum - k * before) as real == kr * (cum - before) as real;
    assert kr * rank - (k * before) as real == kr * (rank - before as real);
    CancelFactor(kr, rank - before as real, (cum - before) as real);
  }

  lemma CancelFactor(k: real, a: real, b: real)
    requires k > 0.0 && b > 0.0
    ensures k * b > 0.0
    ensures (k * a) / (k * b) == a / b
  {
    assert k * b > 0.0;
    var f := a / b;
    assert f * b == a;
    assert f * (k * b) == k * a;
  }

  lemma ScaledMonotonic(k: int, cs: seq<int>, ks: seq<int>)
    requires k > 0 && KTimesEach(k, cs, ks)
    requires forall i :: 0 <= i < |cs| ==> cs[i] >= 0
    ensures Monotonic(ks) <==> Monotonic(cs)
  {
    forall i, j | 0 <= i < j < |cs| ensures cs[i] <= cs[j] <==> ks[i] <= ks[j] {
      ScaledProduct(k, cs[i], cs[j]);
    }
    forall i | 0 <= i < |cs| ensures ks[i] >= 0 {
      ScaledProduct(k, 0, cs[i]);
    }
    if Monotonic(ks) {
      forall i, j | 0 <= i < j < |cs| ensures cs[i] <= cs[j] {
        assert ks[i] <= ks[j];
      }
    }
  }

  predicate KTimes(k: int, r: real, kr: real) {
    kr == k as real * r
  }

  predicate KTimesEach(k: int, cs: seq<int>, ks: seq<int>) {
    |cs| == |ks| && forall i :: 0 <= i < |cs| ==> ks[i] == k * cs[i]
  }

  /** Counting every observation k times over changes no estimate. */
  lemma QuantileScales(q: real, buckets: map<Le, int>, ordered: seq<Le>, count: int, k: int)
    requires Enumerates(ordered, buckets.Keys) && Sorted(ordered)
    requires k > 0 && forall x :: x in buckets ==> buckets[x] >= 0
    ensures Quantile(q, Scaled(k, buckets), ordered, k * count) == Quantile(q, buckets, ordered, count)
  {
    hide *;
    ScaledCounts(k, buckets, ordered);
    ScaledAccepted(q, buckets, ordered, count, k);
    ScaledRank(q, k, count);
    ScaledQuantile(q, buckets, Scaled(k, buckets), ordered, count, k * count, k);
  }

  lemma ScaledQuantile(q: real, buckets: map<Le, int>, scaled: map<Le, int>, ordered: seq<Le>, count: int, scaledCount: int, k: int)
    requires k > 0 && Enumerates(ordered, buckets.Keys) && Enumerates(ordered, scaled.Keys) && Sorted(ordered)
    requires KTimesEach(k, Counts(ordered, buckets), Counts(ordered, scaled))
    requires Accepted(q, scaled, ordered, scaledCount) <==> Accepted(q, buckets, ordered, count)
    requires KTimes(k, Rank(q, count), Rank(q, scaledCount))
    ensures Quantile(q, scaled, ordered, scaledCount) == Quantile(q, buckets, ordered, count)
  {
    hide Rank, Estimate, Accepted, KTimes, KTimesEach;
    if Accepted(q, buckets, ordered, count) {
      RankLands(q, buckets, ordered, count);
      RankLands(q, scaled, ordered, scaledCount);
      ScaledEstimate(k, ordered, Counts(ordered, buckets), Counts(ordered, scaled), Rank(q, count), Rank(q, scaledCount));
    }
  }

  lemma ScaledCounts(k: int, buckets: map<Le, int>, ordered: seq<Le>)
    requires Enumerates(ordered, buckets.Keys)
    ensures KTimesEach(k, Counts(ordered, buckets), Counts(ordered, Scaled(k, buckets)))
    ensures Enumerates(ordered, Scaled(k, buckets).Keys)
  {
    forall i | 0 <= i < |ordered| ensures ordered[i] in buckets {
      assert ordered[i] in buckets.Keys;
    }
  }

  lemma ScaledAccepted(q: real, buckets: map<Le, int>, ordered: seq<Le>, count: int, k: int)
    requires Enumerates(ordered, buckets.Keys)
    requires k > 0 && forall x :: x in buckets ==> buckets[x] >= 0
    ensures Accepted(q, Scaled(k, buckets), ordered, k * count) <==> Accepted(q, buckets, ordered, count)
  {
    var scaled := Scaled(k, buckets);
    assert |scaled| == |scaled.Keys| == |buckets.Keys| == |buckets|;
    ScaledCounts(k, buckets, ordered);
    ScaledMonotonic(k, Counts(ordered, buckets), Counts(ordered, scaled));
    if PosInf in buckets {
      ScaledGuards(k, buckets[PosInf], count);
    }
  }

  lemma ScaledGuards(k: int, c: int, count: int)
    requires k > 0
    ensures k * c == k * count <==> c == count
    ensures k * count > 0 <==> count > 0
  {
    ScaledProduct(k, c, count);
    ScaledProduct(k, count, c);
    ScaledProduct(k, 0, count);
  }

  lemma ScaledRank(q: real, k: int, count: int)
    requires k > 0
    ensures KTimes(k, Rank(q, count), Rank(q, k * count))
  {
    ProductAsReal(k, count);
    SwapProduct(q, k as real, count as real);
  }

  lemma SwapProduct(q: real, k: real, c: real)
    ensures q * (k * c) == k * (q * c)
  {
  }

  lemma ScaledEstimate(k: int, ordered: seq<Le>, cs: seq<int>, ks: seq<int>, rank: real, scaledRank: real)
    requires k > 0 && |ordered| == |cs| && KTimesEach(k, cs, ks) && KTimes(k, rank, scaledRank)
    requires Lands(cs, rank) && Lands(ks, scaledRank)
    ensures Estimate(ordered, ks, scaledRank) == Estimate(ordered, cs, rank)
  {
    ScaledRanks(k, cs, ks, rank);
    ScaledReaching(cs, ks, rank, scaledRank);
    hide Interpolate;
    var i := FirstReaching(cs, rank);
    if ordered[i].Fin? {
      assert CountBefore(ks, i) == k * CountBefore(cs, i);
      ScaledInterpolate(k, LowerBound(ordered, i), ordered[i].bound, rank, CountBefore(cs, i), cs[i]);
    }
  }

  /** The code also accepts a first count of -1, and there scaling fails: for a factor of
      at least two an accepted dictionary keeps its answer exactly when no count is negative,
      or when the scan had found none to keep. */
  lemma QuantileScalesIff(q: real, buckets: map<Le, int>, ordered: seq<Le>, count: int, k: int)
    requires ValidRequest(q, buckets, ordered, count) && k > 1
    ensures Quantile(q, Scaled(k, buckets), ordered, k * count) == Quantile(q, buckets, ordered, count)
            <==> (forall x :: x in buckets ==> buckets[x] >= 0) || !Answered(q, buckets, ordered, count)
  {
    hide Rank, Estimate, Answered;
    if forall x :: x in buckets ==> buckets[x] >= 0 {
      QuantileScales(q, buckets, ordered, count, k);
    } else {
      QuantileDefinedIff(q, buckets, ordered, count);
      var x :| x in buckets && buckets[x] < 0;
      var i :| 0 <= i < |ordered| && ordered[i] == x;
      var scaled := Scaled(k, buckets);
      ScaledProduct(k, buckets[x], -1);
      assert Counts(ordered, scaled)[i] == k * buckets[x];
      assert !Accepted(q, scaled, ordered, k * count);
    }
  }

  /** The smallest case: one finite bound with count -1. It has a median, and counting
      everything twice over takes it away. */
  lemma ScalingCanFail() returns (buckets: map<Le, int>, ordered: seq<Le>)
    ensures Enumerates(ordered, buckets.Keys) && Sorted(ordered) && Accepted(0.5, buckets, ordered, 1)
    ensures Quantile(0.5, buckets, ordered, 1).Some? && Quantile(0.5, Scaled(2, buckets), ordered, 2) == None
  {
    hide Rank, Estimate, Quantile;
    var x := Fin(1.0, "1");
    ordered, buckets := [x, PosInf], map[x := -1, PosInf := 1];
    assert Counts(ordered, buckets) == [-1, 1];
    SortedLength(ordered, buckets.Keys);
    QuantileDefinedIff(0.5, buckets, ordered, 1);
    assert x in buckets && AllParse(buckets) && HasFinite(buckets);
    assert buckets[x] == -1;
    ScaledNegative(buckets, ordered);
  }

  lemma ScaledNegative(buckets: map<Le, int>, ordered: seq<Le>)
    requires Enumerates(ordered, buckets.Keys) && Sorted(ordered) && ordered != [] && buckets[ordered[0]] == -1
    ensures Quantile(0.5, Scaled(2, buckets), ordered, 2) == None
  {
    assert Counts(ordered, Scaled(2, buckets))[0] == -2;
  }
}
