/** What a placement promises: the verdict is decided by how many GPUs can hold a share,
    the suggestion is the best that many, and more memory or GPUs never make it worse. */
module ResourceFitLaws {
  import opened Prelude
  import opened ResourceFit

  // ------------------------------------------------------------- vocabulary

  /** The GPU holds the share and its safety margin. */
  predicate Holds(g: Gpu, share: int) {
    g.free >= share + g.margin
  }

  /** It does so with 15% of its free memory, cut to whole megabytes, to spare. */
  predicate Comfortable(g: Gpu, share: int) {
    Holds(g, share) && 100 * (g.free - share - g.margin) > 15 * g.free - (if g.free >= 0 then 100 else 1)
  }

  /** What one GPU must hold when n GPUs share the demand; a single GPU takes it whole. */
  function PerGpu(required: int, n: int): int
    requires n >= 1
  {
    if n == 1 then required else Share(required, n)
  }

  function HowManyHold(gs: seq<Gpu>, share: int): nat {
    if gs == [] then 0 else HowManyHold(gs[..|gs| - 1], share) + if Holds(gs[|gs| - 1], share) then 1 else 0
  }

  function HowManyComfortable(gs: seq<Gpu>, share: int): nat {
    if gs == [] then 0 else HowManyComfortable(gs[..|gs| - 1], share) + if Comfortable(gs[|gs| - 1], share) then 1 else 0
  }

  /** Every GPU is asked for the same known demand. */
  predicate Demand(gs: seq<Gpu>, required: int) {
    forall i :: 0 <= i < |gs| ==> gs[i].required == Some(required)
  }

  predicate DistinctIds(gs: seq<Gpu>) {
    forall i, j :: 0 <= i < j < |gs| ==> gs[i].id != gs[j].id
  }

  /** A share is at least one megabyte, n shares cover the demand, and shares that are one
      megabyte smaller would not, unless they were nothing. */
  lemma SharesCover(required: int, n: int)
    requires n >= 1
    ensures Share(required, n) >= 1 && n * Share(required, n) >= required
    ensures Share(required, n) > 1 ==> required > n * (Share(required, n) - 1)
  {
    var q := (required + n - 1) / n;
    assert (required + n - 1) == n * q + (required + n - 1) % n;
  }

  // ---------------------------------------------------------- the ranked list

  /** What is left of the free memory once demand and margin are taken; -1 without a demand. */
  function Spare(d: Decision): int {
    if d.required.Some? then d.free - d.margin - d.required.value else -1
  }

  /** A better verdict, or the same verdict with more to spare. */
  predicate Better(a: Decision, b: Decision) {
    || (a.verdict.Fit? && !b.verdict.Fit?)
    || (a.verdict.Tight? && (b.verdict.Unknown? || b.verdict.Insufficient?))
    || (a.verdict.Unknown? && b.verdict.Insufficient?)
    || (a.verdict == b.verdict && Spare(a) > Spare(b))
  }

  lemma RankMeans(a: Decision, b: Decision)
    ensures Outranks(a, b) <==> Better(a, b)
  {
  }

  predicate Precedes(s: seq<Decision>, a: Decision, b: Decision) {
    Better(a, b) || (!Better(b, a) && exists i, j :: 0 <= i < j < |s| && s[i] == a && s[j] == b)
  }

  lemma {:induction false} InsertKeeps(x: Decision, s: seq<Decision>)
    ensures multiset(Insert(x, s)) == multiset(s) + multiset{x}
  {
    if s == [] || !Outranks(s[0], x) {
    } else {
      InsertKeeps(x, s[1..]);
      assert s == [s[0]] + s[1..];
      assert Insert(x, s) == [s[0]] + Insert(x, s[1..]);
    }
  }

  /** Ranking neither loses nor invents a GPU. */
  lemma {:induction false} RankedKeeps(s: seq<Decision>)
    ensures multiset(Ranked(s)) == multiset(s)
  {
    if s != [] {
      RankedKeeps(s[1..]);
      InsertKeeps(s[0], Ranked(s[1..]));
      assert s == [s[0]] + s[1..];
    }
  }

  lemma BetterOrder(a: Decision, b: Decision, c: Decision)
    ensures Better(a, b) && Better(b, c) ==> Better(a, c)
    ensures !Better(a, b) && !Better(b, c) ==> !Better(a, c)
    ensures Better(a, b) ==> !Better(b, a)
  {
  }

  lemma {:induction false} InsertPlaces(x: Decision, s: seq<Decision>, base: seq<Decision>)
    requires forall p, q :: 0 <= p < q < |s| ==> Precedes(base, s[p], s[q])
    requires forall p :: 0 <= p < |s| ==> s[p] in base
    ensures var r := Insert(x, s); forall p, q :: 0 <= p < q < |r| ==> Precedes([x] + base, r[p], r[q])
  {
    if s != [] {
      RankMeans(s[0], x);
    }
    hide Better, Outranks;
    if s == [] || !Better(s[0], x) {
      var r := [x] + s;
      assert Insert(x, s) == r;
      forall p, q | 0 <= p < q < |r| ensures Precedes([x] + base, r[p], r[q]) {
        if p == 0 {
          HeadPrecedes(x, s, base, q - 1);
        } else {
          Shifted(x, base, s[p - 1], s[q - 1]);
        }
      }
    } else {
      var rest := Insert(x, s[1..]);
      InsertPlaces(x, s[1..], base);
      InsertKeeps(x, s[1..]);
      var r := [s[0]] + rest;
      assert Insert(x, s) == r;
      forall p, q | 0 <= p < q < |r| ensures Precedes([x] + base, r[p], r[q]) {
        if p == 0 {
          assert r[q] in multiset(rest);
          if r[q] != x {
            var k :| 0 <= k < |s[1..]| && s[1..][k] == r[q];
            assert Precedes(base, s[0], s[k + 1]);
            Shifted(x, base, s[0], r[q]);
          }
        }
      }
    }
  }

  lemma Shifted(x: Decision, base: seq<Decision>, a: Decision, b: Decision)
    requires Precedes(base, a, b)
    ensures Precedes([x] + base, a, b)
  {
    hide Better, Outranks;
    if !Better(a, b) {
      var i, j :| 0 <= i < j < |base| && base[i] == a && base[j] == b;
      assert ([x] + base)[i + 1] == a && ([x] + base)[j + 1] == b;
    }
  }

  lemma HeadPrecedes(x: Decision, s: seq<Decision>, base: seq<Decision>, q: nat)
    requires q < |s| && !Better(s[0], x) && s[q] in base
    requires q > 0 ==> Precedes(base, s[0], s[q])
    ensures Precedes([x] + base, x, s[q])
  {
    if q > 0 {
      BetterOrder(s[q], s[0], x);
      BetterOrder(s[0], s[q], s[0]);
    }
    var j :| 0 <= j < |base| && base[j] == s[q];
    assert ([x] + base)[0] == x && ([x] + base)[j + 1] == s[q];
  }

  /** The ranking is by verdict, at equal verdicts by what is left to spare, and by position in
      the list where that is equal too. */
  lemma {:induction false} RankedOrder(s: seq<Decision>)
    ensures var r := Ranked(s); forall p, q :: 0 <= p < q < |r| ==> Precedes(s, r[p], r[q])
  {
    hide Precedes, Insert;
    if s != [] {
      var rest := Ranked(s[1..]);
      RankedOrder(s[1..]);
      RankedKeeps(s[1..]);
      forall p | 0 <= p < |rest| ensures rest[p] in s[1..] {
        assert rest[p] in multiset(s[1..]);
      }
      InsertPlaces(s[0], rest, s[1..]);
      assert [s[0]] + s[1..] == s;
      var r := Ranked(s);
      assert r == Insert(s[0], rest);
      forall p, q | 0 <= p < q < |r| ensures Precedes(s, r[p], r[q]) {
        assert Precedes([s[0]] + s[1..], r[p], r[q]);
      }
    }
  }

  // ---------------------------------------------------------- the verdict

  function CountFit(ds: seq<Decision>): nat {
    if ds == [] then 0 else CountFit(ds[..|ds| - 1]) + if ds[|ds| - 1].verdict.Fit? then 1 else 0
  }

  lemma {:induction false} CountFitByMultiset(a: seq<Decision>, b: seq<Decision>)
    requires multiset(a) == multiset(b)
    ensures CountFit(a) == CountFit(b)
    decreases |a|
  {
    if a == [] {
      assert |b| == |multiset(b)| == 0;
    } else {
      var x := a[|a| - 1];
      assert a == a[..|a| - 1] + [x];
      assert x in multiset(b);
      var k :| 0 <= k < |b| && b[k] == x;
      var c := b[..k] + b[k + 1..];
      assert b == b[..k] + [x] + b[k + 1..];
      assert multiset(a[..|a| - 1]) == multiset(a) - multiset{x};
      assert multiset(c) == multiset(b) - multiset{x};
      CountFitByMultiset(a[..|a| - 1], c);
      CountFitConcat(b[..k], [x]);
      CountFitConcat(b[..k] + [x], b[k + 1..]);
      CountFitConcat(b[..k], b[k + 1..]);
    }
  }

  lemma {:induction false} CountFitConcat(a: seq<Decision>, b: seq<Decision>)
    ensures CountFit(a + b) == CountFit(a) + CountFit(b)
    decreases |b|
  {
    if b == [] {
      assert a + b == a;
    } else {
      assert (a + b)[..|a + b| - 1] == a + b[..|b| - 1];
      CountFitConcat(a, b[..|b| - 1]);
    }
  }

  /** In a list where no TIGHT precedes a FIT, the first n are all FIT exactly when there
      are n of them. */
  lemma {:induction false} PrefixFit(r: seq<Decision>, n: int)
    requires 0 <= n <= |r|
    requires forall i, j :: 0 <= i < j < |r| && r[j].verdict.Fit? ==> r[i].verdict.Fit?
    ensures AllFit(r[..n]) <==> CountFit(r) >= n
    ensures CountFit(r) <= |r|
    decreases |r|
  {
    if r != [] {
      var m := |r| - 1;
      if n == |r| {
        PrefixFit(r[..m], m);
        assert r[..n] == r && r[..m][..m] == r[..m];
        assert AllFit(r) <==> AllFit(r[..m]) && r[m].verdict.Fit?;
      } else {
        PrefixFit(r[..m], n);
        PrefixFit(r[..m], m);
        assert r[..m][..n] == r[..n];
        assert r[m].verdict.Fit? ==> AllFit(r[..m][..m]);
      }
    }
  }

  lemma {:induction false} SelectedAre(ds: seq<Decision>, vs: set<Verdict>)
    ensures forall d :: d in WithVerdict(ds, vs) <==> d in ds && d.verdict in vs
  {
    if ds != [] {
      SelectedAre(ds[..|ds| - 1], vs);
      assert ds == ds[..|ds| - 1] + [ds[|ds| - 1]];
    }
  }

  /** What stays of a list keeps its order. */
  lemma {:induction false} SelectedOrder(ds: seq<Decision>, vs: set<Verdict>, a: Decision, b: Decision)
    requires exists i, j :: 0 <= i < j < |WithVerdict(ds, vs)| && WithVerdict(ds, vs)[i] == a && WithVerdict(ds, vs)[j] == b
    ensures exists i, j :: 0 <= i < j < |ds| && ds[i] == a && ds[j] == b
  {
    var r := WithVerdict(ds, vs);
    var i, j :| 0 <= i < j < |r| && r[i] == a && r[j] == b;
    var init, last := ds[..|ds| - 1], |ds| - 1;
    var short := WithVerdict(init, vs);
    if j < |short| {
      assert short[i] == a && short[j] == b;
      SelectedOrder(init, vs, a, b);
      var k, l :| 0 <= k < l < |init| && init[k] == a && init[l] == b;
      assert ds[k] == a && ds[l] == b;
    } else {
      assert short[i] == a;
      SelectedAre(init, vs);
      var k :| 0 <= k < |init| && init[k] == a;
      assert ds[k] == a && ds[last] == b;
    }
  }

  /** Evaluated at a share, a GPU is FIT if it holds it comfortably, TIGHT if it holds it,
      and INSUFFICIENT otherwise. */
  lemma VerdictMeans(g: Gpu, share: int)
    ensures var v := Evaluate(g.(required := Some(share))).verdict;
            && (v.Fit? <==> Comfortable(g, share))
            && (v.Fit? || v.Tight? <==> Holds(g, share))
            && (v.Insufficient? <==> !Holds(g, share))
  {
  }

  function At(gs: seq<Gpu>, share: int): (r: seq<Decision>)
    ensures |r| == |gs| && forall i :: 0 <= i < |gs| ==> r[i] == Evaluate(gs[i].(required := Some(share)))
  {
    seq(|gs|, i requires 0 <= i < |gs| => Evaluate(gs[i].(required := Some(share))))
  }

  lemma LastAt(gs: seq<Gpu>, share: int)
    requires gs != []
    ensures var ds, g := At(gs, share), gs[|gs| - 1];
            && |ds| == |gs| && ds[..|ds| - 1] == At(gs[..|gs| - 1], share)
            && (ds[|ds| - 1].verdict.Fit? <==> Comfortable(g, share))
            && (ds[|ds| - 1].verdict.Fit? || ds[|ds| - 1].verdict.Tight? <==> Holds(g, share))
            && !ds[|ds| - 1].verdict.Unknown?
  {
    VerdictMeans(gs[|gs| - 1], share);
    hide Evaluate, Comfortable, Holds;
  }

  lemma {:induction false} EligibleAt(gs: seq<Gpu>, share: int)
    ensures |WithVerdict(At(gs, share), {Fit, Tight})| == HowManyHold(gs, share)
    ensures CountFit(WithVerdict(At(gs, share), {Fit, Tight})) == HowManyComfortable(gs, share)
  {
    hide At, Comfortable, Holds;
    if gs == [] {
      assert At(gs, share) == [];
    } else {
      var ds := At(gs, share);
      EligibleAt(gs[..|gs| - 1], share);
      LastAt(gs, share);
      ComfortableHolds(gs[|gs| - 1], share);
      var short := WithVerdict(ds[..|ds| - 1], {Fit, Tight});
      assert short + [] == short;
      CountFitConcat(short, [ds[|ds| - 1]]);
      assert [ds[|ds| - 1]][..0] == [];
    }
  }

  lemma {:induction false} CountsAt(gs: seq<Gpu>, share: int)
    ensures WithVerdict(At(gs, share), {Fit}) == [] <==> HowManyComfortable(gs, share) == 0
    ensures WithVerdict(At(gs, share), {Tight}) == [] <==> HowManyHold(gs, share) == HowManyComfortable(gs, share)
    ensures WithVerdict(At(gs, share), {Unknown}) == []
    ensures HowManyComfortable(gs, share) <= HowManyHold(gs, share) <= |gs|
  {
    hide At, Comfortable, Holds;
    if gs == [] {
      assert At(gs, share) == [];
    } else {
      CountsAt(gs[..|gs| - 1], share);
      LastAt(gs, share);
      ComfortableHolds(gs[|gs| - 1], share);
    }
  }

  lemma ComfortableHolds(g: Gpu, share: int)
    ensures Comfortable(g, share) ==> Holds(g, share)
  {
  }

  /** The verdict as a matter of counting alone. */
  function ByCounts(n: int, hold: nat, comfortable: nat): Verdict {
    if comfortable >= n then Fit else if hold >= n then Tight else Insufficient
  }

  lemma PlacedAt(gs: seq<Gpu>, required: int, n: int)
    requires n >= 1 && Demand(gs, required)
    ensures n == 1 ==> EvaluateAll(gs) == At(gs, PerGpu(required, n))
    ensures n >= 2 ==> EvaluateAll(Split(gs, n)) == At(gs, PerGpu(required, n)) && !AnyUnknownDemand(EvaluateAll(Split(gs, n)))
  {
    hide Share, Comfort;
    forall i | 0 <= i < |gs| ensures gs[i].(required := Some(required)) == gs[i] {}
  }

  /** With a known demand the placement is FIT exactly when n GPUs hold their share
      comfortably, TIGHT exactly when not but n hold it, and INSUFFICIENT otherwise. */
  lemma {:induction false} VerdictByCounts(gs: seq<Gpu>, required: int, n: int)
    requires n >= 1 && Demand(gs, required)
    ensures var share := PerGpu(required, n);
            Place(gs, n).verdict == ByCounts(n, HowManyHold(gs, share), HowManyComfortable(gs, share))
  {
    hide PerGpu, EvaluateAll, Split, AllFit, WithVerdict, At, CountFit, Best, HowManyHold, HowManyComfortable, AnyUnknownDemand, Demand;
    var share := PerGpu(required, n);
    CountsAt(gs, share);
    EligibleAt(gs, share);
    PlacedAt(gs, required, n);
    if n >= 2 && |gs| >= n && HowManyHold(gs, share) >= n {
      BestAllFit(At(gs, share), n);
    }
  }

  lemma {:induction false} BestAllFit(ds: seq<Decision>, n: int)
    requires 0 <= n <= |WithVerdict(ds, {Fit, Tight})|
    ensures AllFit(Best(WithVerdict(ds, {Fit, Tight}), n)) <==> CountFit(WithVerdict(ds, {Fit, Tight})) >= n
  {
    var eligible := WithVerdict(ds, {Fit, Tight});
    SelectedAre(ds, {Fit, Tight});
    hide WithVerdict, Ranked, CountFit, AllFit;
    var r := Ranked(eligible);
    RankedLength(eligible);
    RankedKeeps(eligible);
    RankedOrder(eligible);
    CountFitByMultiset(r, eligible);
    forall i, j | 0 <= i < j < |r| && r[j].verdict.Fit? ensures r[i].verdict.Fit? {
      assert r[i] in multiset(eligible);
      assert Precedes(eligible, r[i], r[j]);
    }
    PrefixFit(r, n);
  }

  // --------------------------------------------------------- the suggestion

  /** A placement that fits suggests n different GPUs, each of which holds the share, and no
      GPU left out that also holds it comes before a suggested one. */
  lemma SuggestsTheBest(gs: seq<Gpu>, required: int, n: int)
    requires n >= 1 && Demand(gs, required) && DistinctIds(gs)
    ensures var p := Place(gs, n);
            && (p.verdict.Insufficient? ==> p.suggested == [])
            && (p.verdict.Fit? || p.verdict.Tight? ==> Suggests(gs, PerGpu(required, n), p.suggested, n))
  {
    hide PerGpu, EvaluateAll, Split, AllFit, WithVerdict, At, CountFit, Best, HowManyHold, HowManyComfortable, AnyUnknownDemand, Demand,
      Ids, Suggests, DistinctIds;
    var share := PerGpu(required, n);
    PlacedAt(gs, required, n);
    CountsAt(gs, share);
    EligibleAt(gs, share);
    if n == 1 {
      if HowManyComfortable(gs, share) > 0 {
        BestOf(gs, share, {Fit}, 1);
      } else if HowManyHold(gs, share) > 0 {
        BestOf(gs, share, {Tight}, 1);
      }
    } else if |gs| >= n && HowManyHold(gs, share) >= n {
      BestOf(gs, share, {Fit, Tight}, n);
    }
  }

  /** n different GPUs that hold the share, best first, with no better one left out. */
  ghost predicate Suggests(gs: seq<Gpu>, share: int, ids: seq<string>, n: int) {
    && |ids| == n
    && (forall k, l :: 0 <= k < l < n ==> ids[k] != ids[l])
    && (forall k :: 0 <= k < n ==> exists i :: 0 <= i < |gs| && gs[i].id == ids[k] && Holds(gs[i], share))
    && (forall k, l, i, j :: 0 <= k < l < n && 0 <= i < |gs| && 0 <= j < |gs| && gs[i].id == ids[k] && gs[j].id == ids[l] ==>
          ComesFirst(gs, share, i, j))
    && forall i, j :: 0 <= i < |gs| && 0 <= j < |gs| && gs[i].id in ids && gs[j].id !in ids && Holds(gs[j], share) ==>
         ComesFirst(gs, share, i, j)
  }

  /** Of two GPUs that hold the share, the one that holds it comfortably; if both or neither do,
      the one with more memory left after its margin; if that is equal, the one listed first. */
  predicate ComesFirst(gs: seq<Gpu>, share: int, i: nat, j: nat)
    requires i < |gs| && j < |gs|
  {
    var a, b := gs[i], gs[j];
    || (Comfortable(a, share) && !Comfortable(b, share))
    || ((Comfortable(a, share) <==> Comfortable(b, share))
        && (a.free - a.margin > b.free - b.margin || (a.free - a.margin == b.free - b.margin && i < j)))
  }

  lemma BetterMeans(gs: seq<Gpu>, share: int, i: nat, j: nat)
    requires i < |gs| && j < |gs| && Holds(gs[i], share) && Holds(gs[j], share)
    ensures ComesFirst(gs, share, i, j) <==>
              Better(At(gs, share)[i], At(gs, share)[j]) || (!Better(At(gs, share)[j], At(gs, share)[i]) && i < j)
  {
    VerdictMeans(gs[i], share);
    VerdictMeans(gs[j], share);
    SameFields(gs[i], share);
    SameFields(gs[j], share);
    hide Evaluate, Comfortable;
  }

  lemma SameFields(g: Gpu, share: int)
    ensures var d := Evaluate(g.(required := Some(share))); d.free == g.free && d.margin == g.margin && d.required == Some(share)
  {
    hide Comfort;
  }

  /** Of two GPUs in the ranking, the earlier one comes first. */
  lemma RankedPair(gs: seq<Gpu>, share: int, vs: set<Verdict>, p: nat, q: nat) returns (i: nat, j: nat)
    requires DistinctIds(gs) && vs <= {Fit, Tight} && p < q < |Ranked(WithVerdict(At(gs, share), vs))|
    ensures i < |gs| && j < |gs| && i != j && ComesFirst(gs, share, i, j)
    ensures Ranked(WithVerdict(At(gs, share), vs))[p] == At(gs, share)[i] && Ranked(WithVerdict(At(gs, share), vs))[q] == At(gs, share)[j]
  {
    hide At, WithVerdict, Ranked, Better, DistinctIds, Evaluate, Holds, ComesFirst;
    var ds := At(gs, share);
    var chosen := WithVerdict(ds, vs);
    var r := Ranked(chosen);
    RankedOrder(chosen);
    assert Precedes(chosen, r[p], r[q]);
    if Better(r[p], r[q]) {
      BetterOrder(r[p], r[q], r[p]);
      i := RankedFrom(gs, share, vs, p);
      j := RankedFrom(gs, share, vs, q);
    } else {
      SelectedOrder(ds, vs, r[p], r[q]);
      i, j :| 0 <= i < j < |ds| && ds[i] == r[p] && ds[j] == r[q];
    }
    HeldBySelected(gs, share, vs, p, i);
    HeldBySelected(gs, share, vs, q, j);
    BetterMeans(gs, share, i, j);
  }

  lemma {:induction false} HeldBySelected(gs: seq<Gpu>, share: int, vs: set<Verdict>, p: nat, i: nat)
    requires vs <= {Fit, Tight} && p < |Ranked(WithVerdict(At(gs, share), vs))| && i < |gs|
    requires Ranked(WithVerdict(At(gs, share), vs))[p] == At(gs, share)[i]
    ensures Holds(gs[i], share)
  {
    var k := RankedFrom(gs, share, vs, p);
    VerdictMeans(gs[i], share);
    hide WithVerdict, Ranked, Evaluate, Holds;
  }

  lemma RankedFrom(gs: seq<Gpu>, share: int, vs: set<Verdict>, p: nat) returns (i: nat)
    requires p < |Ranked(WithVerdict(At(gs, share), vs))|
    ensures i < |gs| && At(gs, share)[i] == Ranked(WithVerdict(At(gs, share), vs))[p] && At(gs, share)[i].verdict in vs
  {
    hide At, WithVerdict, Ranked;
    var chosen := WithVerdict(At(gs, share), vs);
    RankedKeeps(chosen);
    SelectedAre(At(gs, share), vs);
    assert Ranked(chosen)[p] in multiset(chosen);
    i :| 0 <= i < |gs| && At(gs, share)[i] == Ranked(chosen)[p];
  }

  lemma RankedHas(gs: seq<Gpu>, share: int, vs: set<Verdict>, i: nat) returns (p: nat)
    requires i < |gs| && At(gs, share)[i].verdict in vs
    ensures p < |Ranked(WithVerdict(At(gs, share), vs))| && Ranked(WithVerdict(At(gs, share), vs))[p] == At(gs, share)[i]
  {
    hide At, WithVerdict, Ranked;
    var chosen := WithVerdict(At(gs, share), vs);
    RankedKeeps(chosen);
    SelectedAre(At(gs, share), vs);
    assert At(gs, share)[i] in multiset(chosen);
    assert At(gs, share)[i] in multiset(Ranked(chosen));
    p :| 0 <= p < |Ranked(chosen)| && Ranked(chosen)[p] == At(gs, share)[i];
  }

  /** The first n of the GPUs with these verdicts, when no other GPU holds the share better. */
  lemma {:induction false} BestOf(gs: seq<Gpu>, share: int, vs: set<Verdict>, n: int)
    requires DistinctIds(gs) && vs <= {Fit, Tight} && (Tight in vs || Fit in vs)
    requires 0 <= n <= |WithVerdict(At(gs, share), vs)|
    requires Fit !in vs ==> WithVerdict(At(gs, share), {Fit}) == []
    ensures Suggests(gs, share, Ids(Best(WithVerdict(At(gs, share), vs), n)), n)
  {
    hide WithVerdict, Ranked, Better, Evaluate, Holds, ComesFirst;
    var r := Ranked(WithVerdict(At(gs, share), vs));
    RankedLength(WithVerdict(At(gs, share), vs));
    var ids := Ids(Best(WithVerdict(At(gs, share), vs), n));
    assert forall k :: 0 <= k < n ==> ids[k] == r[k].id;
    forall k, l | 0 <= k < l < n ensures ids[k] != ids[l] {
      var i, j := RankedPair(gs, share, vs, k, l);
      SameId(gs, share, i);
      SameId(gs, share, j);
    }
    forall k | 0 <= k < n ensures exists i :: 0 <= i < |gs| && gs[i].id == ids[k] && Holds(gs[i], share) {
      var i := RankedFrom(gs, share, vs, k);
      VerdictMeans(gs[i], share);
      SameId(gs, share, i);
    }
    forall k, l, i, j | 0 <= k < l < n && 0 <= i < |gs| && 0 <= j < |gs| && gs[i].id == ids[k] && gs[j].id == ids[l]
      ensures ComesFirst(gs, share, i, j)
    {
      var x, y := RankedPair(gs, share, vs, k, l);
      SameId(gs, share, x);
      SameId(gs, share, y);
    }
    forall i, j | 0 <= i < |gs| && 0 <= j < |gs| && gs[i].id in ids && gs[j].id !in ids && Holds(gs[j], share)
      ensures ComesFirst(gs, share, i, j)
    {
      var p :| 0 <= p < n && ids[p] == gs[i].id;
      LeftOut(gs, share, vs, n, i, j, p);
    }
  }

  lemma SameId(gs: seq<Gpu>, share: int, i: nat)
    requires i < |gs|
    ensures At(gs, share)[i].id == gs[i].id
  {
  }

  lemma {:induction false} LeftOut(gs: seq<Gpu>, share: int, vs: set<Verdict>, n: int, i: nat, j: nat, p: nat)
    requires DistinctIds(gs) && vs <= {Fit, Tight} && (Tight in vs || Fit in vs)
    requires i < |gs| && j < |gs| && p < n <= |Ranked(WithVerdict(At(gs, share), vs))|
    requires Fit !in vs ==> WithVerdict(At(gs, share), {Fit}) == []
    requires Ranked(WithVerdict(At(gs, share), vs))[p].id == gs[i].id && Holds(gs[j], share)
    requires forall k :: 0 <= k < n ==> Ranked(WithVerdict(At(gs, share), vs))[k].id != gs[j].id
    ensures ComesFirst(gs, share, i, j)
  {
    hide At, WithVerdict, Ranked, Evaluate, Holds;
    var ds := At(gs, share);
    var k := RankedFrom(gs, share, vs, p);
    SameId(gs, share, k);
    assert k == i;
    VerdictMeans(gs[j], share);
    SameId(gs, share, j);
    if ds[j].verdict in vs {
      var q := RankedHas(gs, share, vs, j);
      var x, y := RankedPair(gs, share, vs, p, q);
      SameId(gs, share, x);
      SameId(gs, share, y);
    } else {
      SelectedAre(ds, {Fit});
      assert ds[j] in ds;
      VerdictMeans(gs[i], share);
    }
  }

  // ------------------------------------------------------------- monotonicity

  /** The same GPUs, each with its own demand or none, with at least as much free memory each. */
  predicate NoLessFree(gs: seq<Gpu>, hs: seq<Gpu>) {
    |gs| == |hs| && forall i :: 0 <= i < |gs| ==> gs[i].free <= hs[i].free && hs[i] == gs[i].(free := hs[i].free)
  }

  lemma ComfortGrowsSlower(x: int, y: int)
    requires x <= y
    ensures 0 <= Comfort(y) - Comfort(x) <= y - x
  {
  }

  lemma MoreFreeGradesNoWorse(g: Gpu, h: Gpu)
    requires g.free <= h.free && h == g.(free := h.free)
    ensures Grade(Evaluate(g).verdict) <= Grade(Evaluate(h).verdict)
  {
    hide Comfort;
    ComfortGrowsSlower(g.free, h.free);
  }

  /** The same GPUs graded twice, the second time no worse. */
  predicate NoWorse(ds: seq<Decision>, es: seq<Decision>) {
    && |ds| == |es|
    && forall i :: 0 <= i < |ds| ==> ds[i].required == es[i].required && Grade(ds[i].verdict) <= Grade(es[i].verdict)
  }

  lemma GradedNoWorse(gs: seq<Gpu>, hs: seq<Gpu>)
    requires NoLessFree(gs, hs)
    ensures NoWorse(EvaluateAll(gs), EvaluateAll(hs))
  {
    hide Evaluate;
    forall i | 0 <= i < |gs| ensures Grade(Evaluate(gs[i]).verdict) <= Grade(Evaluate(hs[i]).verdict) {
      MoreFreeGradesNoWorse(gs[i], hs[i]);
    }
    forall i | 0 <= i < |gs| ensures Evaluate(gs[i]).required == Evaluate(hs[i]).required {
      SameDemand(gs[i]);
      SameDemand(hs[i]);
    }
  }

  lemma SameDemand(g: Gpu)
    ensures Evaluate(g).required == g.required
  {
  }

  lemma SplitNoLess(gs: seq<Gpu>, hs: seq<Gpu>, n: int)
    requires n >= 1 && NoLessFree(gs, hs)
    ensures NoLessFree(Split(gs, n), Split(hs, n))
  {
    hide Share;
  }

  /** On one GPU the result is the best grade of all. */
  lemma BestGrade(ds: seq<Decision>)
    ensures forall i :: 0 <= i < |ds| ==> Grade(ds[i].verdict) <= Grade(PlaceOne(ds).verdict)
    ensures PlaceOne(ds).verdict.Insufficient? || exists i :: 0 <= i < |ds| && ds[i].verdict == PlaceOne(ds).verdict
  {
    SelectedAre(ds, {Fit});
    SelectedAre(ds, {Tight});
    SelectedAre(ds, {Unknown});
    hide WithVerdict, Best, Ids;
    var v := PlaceOne(ds).verdict;
    if !v.Insufficient? {
      assert WithVerdict(ds, {v})[0] in ds;
    }
    forall i | 0 <= i < |ds| ensures Grade(ds[i].verdict) <= Grade(v) {
      assert ds[i].verdict == Fit ==> ds[i] in WithVerdict(ds, {Fit});
      assert ds[i].verdict == Tight ==> ds[i] in WithVerdict(ds, {Tight});
      assert ds[i].verdict == Unknown ==> ds[i] in WithVerdict(ds, {Unknown});
    }
  }

  lemma PlaceOneNoWorse(ds: seq<Decision>, es: seq<Decision>)
    requires NoWorse(ds, es)
    ensures Grade(PlaceOne(ds).verdict) <= Grade(PlaceOne(es).verdict)
  {
    hide PlaceOne;
    BestGrade(ds);
    BestGrade(es);
  }

  lemma {:induction false} MoreEligible(ds: seq<Decision>, es: seq<Decision>)
    requires NoWorse(ds, es)
    ensures |WithVerdict(ds, {Fit, Tight})| <= |WithVerdict(es, {Fit, Tight})|
    ensures CountFit(WithVerdict(ds, {Fit, Tight})) <= CountFit(WithVerdict(es, {Fit, Tight}))
    decreases |ds|
  {
    if ds != [] {
      MoreEligible(ds[..|ds| - 1], es[..|es| - 1]);
      LastEligible(ds);
      LastEligible(es);
      hide WithVerdict, CountFit;
      var d, e := ds[|ds| - 1].verdict, es[|es| - 1].verdict;
      assert Grade(d) <= Grade(e);
    }
  }

  lemma {:induction false} LastEligible(ds: seq<Decision>)
    requires ds != []
    ensures var v, short := ds[|ds| - 1].verdict, WithVerdict(ds[..|ds| - 1], {Fit, Tight});
            && |WithVerdict(ds, {Fit, Tight})| == |short| + (if v.Fit? || v.Tight? then 1 else 0)
            && CountFit(WithVerdict(ds, {Fit, Tight})) == CountFit(short) + (if v.Fit? then 1 else 0)
  {
    var short := WithVerdict(ds[..|ds| - 1], {Fit, Tight});
    assert short + [] == short;
    CountFitConcat(short, [ds[|ds| - 1]]);
    assert [ds[|ds| - 1]][..0] == [];
  }

  /** Over several GPUs the result is UNKNOWN, or a matter of counting. */
  lemma {:induction false} ManyByCounts(ds: seq<Decision>, n: int)
    requires n >= 2
    ensures PlaceMany(ds, n).verdict ==
              if AnyUnknownDemand(ds) then Unknown
              else ByCounts(n, |WithVerdict(ds, {Fit, Tight})|, CountFit(WithVerdict(ds, {Fit, Tight})))
  {
    SelectedCount(ds);
    hide WithVerdict, CountFit, AllFit, Best, AnyUnknownDemand;
    if |WithVerdict(ds, {Fit, Tight})| >= n {
      BestAllFit(ds, n);
    }
  }

  lemma {:induction false} SelectedCount(ds: seq<Decision>)
    ensures CountFit(WithVerdict(ds, {Fit, Tight})) <= |WithVerdict(ds, {Fit, Tight})|
  {
    CountFitAtMost(WithVerdict(ds, {Fit, Tight}));
  }

  lemma {:induction false} CountFitAtMost(ds: seq<Decision>)
    ensures CountFit(ds) <= |ds|
  {
    if ds != [] {
      CountFitAtMost(ds[..|ds| - 1]);
    }
  }

  lemma PlaceManyNoWorse(ds: seq<Decision>, es: seq<Decision>, n: int)
    requires n >= 2 && NoWorse(ds, es)
    ensures Grade(PlaceMany(ds, n).verdict) <= Grade(PlaceMany(es, n).verdict)
  {
    ManyByCounts(ds, n);
    ManyByCounts(es, n);
    MoreEligible(ds, es);
    SameUnknowns(ds, es);
    hide PlaceMany, WithVerdict, CountFit, AnyUnknownDemand;
  }

  lemma SameUnknowns(ds: seq<Decision>, es: seq<Decision>)
    requires NoWorse(ds, es)
    ensures AnyUnknownDemand(ds) <==> AnyUnknownDemand(es)
  {
  }

  /** The grade of a result, below all others for an error. */
  function Score(r: Result<Fitness, Error>): int {
    if r.Ok? then Grade(r.value.verdict) else -1
  }

  lemma DiskKeepsOrder(p: Placement, q: Placement, diskOk: Option<bool>)
    requires Grade(p.verdict) <= Grade(q.verdict)
    ensures Grade(WithDisk(p, diskOk).verdict) <= Grade(WithDisk(q, diskOk).verdict)
  {
  }

  /** More free memory on any of the GPUs never makes the result worse, whatever each of them
      is asked to hold. */
  lemma MoreFreeNeverWorse(gs: seq<Gpu>, hs: seq<Gpu>, diskFree: Option<int>, download: Option<int>, n: int)
    requires NoLessFree(gs, hs)
    ensures Score(Aggregate(gs, diskFree, download, n)) <= Score(Aggregate(hs, diskFree, download, n))
  {
    if n >= 1 && gs != [] {
      MoreFreePlacesNoWorse(gs, hs, n);
      hide Place, DiskOk;
      DiskKeepsOrder(Place(gs, n), Place(hs, n), DiskOk(diskFree, download));
    }
  }

  lemma MoreFreePlacesNoWorse(gs: seq<Gpu>, hs: seq<Gpu>, n: int)
    requires n >= 1 && NoLessFree(gs, hs)
    ensures Grade(Place(gs, n).verdict) <= Grade(Place(hs, n).verdict)
  {
    hide NoLessFree, NoWorse, EvaluateAll, Split, PlaceOne, PlaceMany;
    assert |gs| == |hs| by { LengthsAgree(gs, hs); }
    if n == 1 {
      GradedNoWorse(gs, hs);
      PlaceOneNoWorse(EvaluateAll(gs), EvaluateAll(hs));
    } else {
      SplitNoLess(gs, hs, n);
      GradedNoWorse(Split(gs, n), Split(hs, n));
      PlaceManyNoWorse(EvaluateAll(Split(gs, n)), EvaluateAll(Split(hs, n)), n);
    }
  }

  lemma LengthsAgree(gs: seq<Gpu>, hs: seq<Gpu>)
    requires NoLessFree(gs, hs)
    ensures |gs| == |hs|
  {
  }

  /** Every GPU has a demand. */
  predicate AllAsked(gs: seq<Gpu>) {
    forall i :: 0 <= i < |gs| ==> gs[i].required.Some?
  }

  /** Nor does one more GPU, wherever it is listed and whatever it is asked to hold, with one
      exception: a GPU without a demand, beside several others that have one and were enough,
      makes the result UNKNOWN. */
  lemma ExtraGpuNeverWorseIff(xs: seq<Gpu>, g: Gpu, ys: seq<Gpu>, diskFree: Option<int>, download: Option<int>, n: int)
    ensures var before, after := Aggregate(xs + ys, diskFree, download, n), Aggregate(xs + [g] + ys, diskFree, download, n);
            Score(before) <= Score(after) <==>
              !(n >= 2 && g.required.None? && AllAsked(xs + ys) && before.Ok? && (before.value.verdict.Fit? || before.value.verdict.Tight?))
  {
    if n >= 1 && xs + ys != [] {
      ExtraGpuPlaces(xs, g, ys, n);
      hide Place, DiskOk, AllAsked;
      if Grade(Place(xs + ys, n).verdict) <= Grade(Place(xs + [g] + ys, n).verdict) {
        DiskKeepsOrder(Place(xs + ys, n), Place(xs + [g] + ys, n), DiskOk(diskFree, download));
      }
    }
  }

  lemma ExtraGpuPlaces(xs: seq<Gpu>, g: Gpu, ys: seq<Gpu>, n: int)
    requires n >= 1
    ensures var p, q := Place(xs + ys, n).verdict, Place(xs + [g] + ys, n).verdict;
            if n >= 2 && g.required.None? && AllAsked(xs + ys) && (p.Fit? || p.Tight?) then q.Unknown? else Grade(p) <= Grade(q)
  {
    hide EvaluateAll, Split, PlaceOne, PlaceMany, AllAsked;
    if n == 1 {
      EvaluatedParts(xs, g, ys);
      ExtraOne(EvaluateAll(xs), Evaluate(g), EvaluateAll(ys));
    } else if |xs + ys| >= n {
      EvaluatedParts(Split(xs, n), SplitOne(g, n), Split(ys, n));
      SplitParts(xs, g, ys, n);
      SplitDemands(xs + ys, n);
      SameDemand(SplitOne(g, n));
      ExtraMany(EvaluateAll(Split(xs, n)), Evaluate(SplitOne(g, n)), EvaluateAll(Split(ys, n)), n);
    }
  }

  lemma EvaluatedParts(xs: seq<Gpu>, g: Gpu, ys: seq<Gpu>)
    ensures EvaluateAll(xs + ys) == EvaluateAll(xs) + EvaluateAll(ys)
    ensures EvaluateAll(xs + [g] + ys) == EvaluateAll(xs) + [Evaluate(g)] + EvaluateAll(ys)
  {
    hide Evaluate;
  }

  lemma SplitParts(xs: seq<Gpu>, g: Gpu, ys: seq<Gpu>, n: int)
    requires n >= 1
    ensures Split(xs + ys, n) == Split(xs, n) + Split(ys, n)
    ensures Split(xs + [g] + ys, n) == Split(xs, n) + [SplitOne(g, n)] + Split(ys, n)
  {
    hide SplitOne;
  }

  lemma SplitDemands(gs: seq<Gpu>, n: int)
    requires n >= 1
    ensures AnyUnknownDemand(EvaluateAll(Split(gs, n))) <==> !AllAsked(gs)
  {
    hide Share, Comfort;
    var ds := EvaluateAll(Split(gs, n));
    assert forall i :: 0 <= i < |gs| ==> (ds[i].required == None <==> gs[i].required == None);
  }

  lemma ExtraOne(xs: seq<Decision>, d: Decision, ys: seq<Decision>)
    ensures Grade(PlaceOne(xs + ys).verdict) <= Grade(PlaceOne(xs + [d] + ys).verdict)
  {
    hide PlaceOne;
    var before, after := xs + ys, xs + [d] + ys;
    BestGrade(before);
    BestGrade(after);
    if i :| 0 <= i < |before| && before[i].verdict == PlaceOne(before).verdict {
      assert after[if i < |xs| then i else i + 1] == before[i];
    }
  }

  lemma {:induction false} SelectedConcat(a: seq<Decision>, b: seq<Decision>, vs: set<Verdict>)
    ensures WithVerdict(a + b, vs) == WithVerdict(a, vs) + WithVerdict(b, vs)
    decreases |b|
  {
    if b == [] {
      assert a + b == a;
    } else {
      assert (a + b)[..|a + b| - 1] == a + b[..|b| - 1];
      SelectedConcat(a, b[..|b| - 1], vs);
    }
  }

  lemma ExtraMany(xs: seq<Decision>, d: Decision, ys: seq<Decision>, n: int)
    requires n >= 2
    ensures var p, q := PlaceMany(xs + ys, n).verdict, PlaceMany(xs + [d] + ys, n).verdict;
            if d.required == None && !AnyUnknownDemand(xs + ys) && (p.Fit? || p.Tight?) then q.Unknown? else Grade(p) <= Grade(q)
  {
    var vs := {Fit, Tight};
    ManyByCounts(xs + ys, n);
    ManyByCounts(xs + [d] + ys, n);
    ExtraUnknown(xs, d, ys);
    SelectedConcat(xs, ys, vs);
    SelectedConcat(xs, [d], vs);
    SelectedConcat(xs + [d], ys, vs);
    hide PlaceMany, WithVerdict, CountFit, AnyUnknownDemand;
    CountFitConcat(WithVerdict(xs, vs), WithVerdict(ys, vs));
    CountFitConcat(WithVerdict(xs, vs), WithVerdict([d], vs));
    CountFitConcat(WithVerdict(xs, vs) + WithVerdict([d], vs), WithVerdict(ys, vs));
  }

  lemma ExtraUnknown(xs: seq<Decision>, d: Decision, ys: seq<Decision>)
    ensures AnyUnknownDemand(xs + [d] + ys) <==> AnyUnknownDemand(xs + ys) || d.required == None
  {
    var before, after := xs + ys, xs + [d] + ys;
    assert forall i :: 0 <= i < |before| ==> after[if i < |xs| then i else i + 1] == before[i];
    assert forall i :: 0 <= i < |after| && i != |xs| ==> before[if i < |xs| then i else i - 1] == after[i];
    assert after[|xs|] == d;
    if AnyUnknownDemand(before) {
      var i :| 0 <= i < |before| && before[i].required == None;
      assert after[if i < |xs| then i else i + 1].required == None;
    }
  }

  lemma {:induction false} SelectedNone(ds: seq<Decision>, v: Verdict)
    requires forall i :: 0 <= i < |ds| ==> ds[i].verdict != v
    ensures WithVerdict(ds, {v}) == []
  {
    if ds != [] {
      SelectedNone(ds[..|ds| - 1], v);
    }
  }

  /** Without a demand the verdict is UNKNOWN, unless there are too few GPUs. */
  lemma UnknownDemand(gs: seq<Gpu>, n: int)
    requires n >= 1 && gs != [] && forall i :: 0 <= i < |gs| ==> gs[i].required == None
    ensures Place(gs, n).verdict == (if n >= 2 && |gs| < n then Insufficient else Unknown)
    ensures Place(gs, n).suggested == []
  {
    hide Comfort, Best, Ids;
    if n == 1 {
      var ds := EvaluateAll(gs);
      SelectedNone(ds, Fit);
      SelectedNone(ds, Tight);
      SelectedAre(ds, {Unknown});
      hide WithVerdict, EvaluateAll;
      assert ds[0] in WithVerdict(ds, {Unknown});
    } else if |gs| >= n {
      assert EvaluateAll(Split(gs, n))[0].required == None;
    }
  }

  // ------------------------------------------------------------------- disk

  /** A request without any GPU to place is refused, whatever else it says; the disk check
      changes no refusal. */
  lemma RefusedIff(gs: seq<Gpu>, diskFree: Option<int>, download: Option<int>, n: int)
    ensures Aggregate(gs, diskFree, download, n).Err? <==> n < 1 || gs == []
    ensures Aggregate(gs, diskFree, download, n) == Err(NoTensorParallel) <==> n < 1
  {
    hide Place, DiskOk, WithDisk;
  }

  /** The disk suffices exactly when the download and one gigabyte fit in the free space to
      the byte (and at least one megabyte is always asked for). */
  lemma DiskIff(diskFree: int, bytes: int)
    ensures DiskOk(Some(diskFree), Some(bytes)) == Some(bytes <= (diskFree - 1024) * 1048576 && diskFree > 1024)
  {
    var q, m := (bytes + MIB - 1) / MIB, (bytes + MIB - 1) % MIB;
    assert bytes + MIB - 1 == MIB * q + m && 0 <= m < MIB;
  }

  /** A suggestion is made exactly when the result is FIT or TIGHT; with too little disk
      space the result is INSUFFICIENT and nothing is suggested. */
  lemma SuggestionIff(gs: seq<Gpu>, required: Option<int>, diskFree: Option<int>, download: Option<int>, n: int)
    requires n >= 1 && gs != [] && DistinctIds(gs) && forall i :: 0 <= i < |gs| ==> gs[i].required == required
    ensures var r := Aggregate(gs, diskFree, download, n).value;
            && (r.suggested != [] <==> r.verdict.Fit? || r.verdict.Tight?)
            && (r.diskOk == Some(false) ==> r.verdict.Insufficient?)
            && (r.diskOk != Some(false) ==> r.verdict == Place(gs, n).verdict && r.suggested == Place(gs, n).suggested)
  {
    if required.Some? {
      SuggestsTheBest(gs, required.value, n);
      VerdictByCounts(gs, required.value, n);
    } else {
      UnknownDemand(gs, n);
    }
    hide Place, PerGpu, HowManyHold, HowManyComfortable, DiskOk;
  }
}
