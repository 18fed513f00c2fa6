/** Advisory placement of a model on the GPUs of one node. Source: `domain/resource_fit.py`.
    Free memory is never pooled across GPUs. Of a GPU only the fields that decide are
    modelled; sizes are integers, and 15% of the free memory is the truncated exact value. */
module ResourceFit {
  import opened Prelude

  datatype Gpu = Gpu(id: string, free: int, margin: int, required: Option<int>)

  datatype Verdict = Fit | Tight | Unknown | Insufficient

  datatype Decision = Decision(id: string, free: int, margin: int, required: Option<int>, verdict: Verdict)

  /** `suggested` is a list of GPU identifiers, best first. */
  datatype Fitness = Fitness(verdict: Verdict, gpus: seq<Decision>, diskOk: Option<bool>, suggested: seq<string>)

  datatype Error = NoTensorParallel | NoGpu

  // ----------------------------------------------------------------- one GPU

  /** 15% of the free memory, truncated towards zero. */
  function Comfort(free: int): int {
    if free >= 0 then free * 15 / 100 else -(-free * 15 / 100)
  }

  /** `evaluate_gpu_fit`. */
  function Evaluate(g: Gpu): Decision {
    var verdict :=
      if g.required == None then Unknown
      else
        var need := g.required.value + g.margin;
        if g.free < need then Insufficient
        else if g.free - need < Comfort(g.free) then Tight
        else Fit;
    Decision(g.id, g.free, g.margin, g.required, verdict)
  }

  function EvaluateAll(gs: seq<Gpu>): (ds: seq<Decision>)
    ensures |ds| == |gs| && forall i :: 0 <= i < |gs| ==> ds[i] == Evaluate(gs[i])
  {
    seq(|gs|, i requires 0 <= i < |gs| => Evaluate(gs[i]))
  }

  function Grade(v: Verdict): int {
    match v
    case Fit => 3
    case Tight => 2
    case Unknown => 1
    case Insufficient => 0
  }

  /** `_headroom_mb`. */
  function Headroom(d: Decision): int {
    if d.required == None then -1 else d.free - d.required.value - d.margin
  }

  /** `_rank_key(a) > _rank_key(b)`. */
  predicate Outranks(a: Decision, b: Decision) {
    Grade(a.verdict) > Grade(b.verdict) || (Grade(a.verdict) == Grade(b.verdict) && Headroom(a) > Headroom(b))
  }

  // ----------------------------------------------------------------- sorting

  /** Before the first element that does not outrank it. */
  function Insert(x: Decision, s: seq<Decision>): seq<Decision> {
    if s == [] then [x]
    else if Outranks(s[0], x) then [s[0]] + Insert(x, s[1..])
    else [x] + s
  }

  /** `sorted(s, key=_rank_key, reverse=True)`, which keeps the order of equal keys. */
  function Ranked(s: seq<Decision>): seq<Decision> {
    if s == [] then [] else Insert(s[0], Ranked(s[1..]))
  }

  function WithVerdict(ds: seq<Decision>, vs: set<Verdict>): seq<Decision> {
    if ds == [] then []
    else WithVerdict(ds[..|ds| - 1], vs) + if ds[|ds| - 1].verdict in vs then [ds[|ds| - 1]] else []
  }

  // --------------------------------------------------------------- the whole

  function AtLeastOne(n: int): int {
    if n < 1 then 1 else n
  }

  /** The share of each of n GPUs, rounded up. */
  function Share(required: int, n: int): int
    requires n >= 1
  {
    AtLeastOne((required + n - 1) / n)
  }

  function Split(gs: seq<Gpu>, n: int): (r: seq<Gpu>)
    requires n >= 1
    ensures |r| == |gs| && forall i :: 0 <= i < |gs| ==> r[i] == SplitOne(gs[i], n)
  {
    seq(|gs|, i requires 0 <= i < |gs| => SplitOne(gs[i], n))
  }

  function SplitOne(g: Gpu, n: int): Gpu
    requires n >= 1
  {
    g.(required := if g.required == None then None else Some(Share(g.required.value, n)))
  }

  function Ids(ds: seq<Decision>): (r: seq<string>)
    ensures |r| == |ds| && forall i :: 0 <= i < |ds| ==> r[i] == ds[i].id
  {
    seq(|ds|, i requires 0 <= i < |ds| => ds[i].id)
  }

  datatype Placement = Placement(verdict: Verdict, gpus: seq<Decision>, suggested: seq<string>)

  lemma {:induction false} RankedLength(s: seq<Decision>)
    ensures |Ranked(s)| == |s|
  {
    if s != [] {
      RankedLength(s[1..]);
      InsertLength(s[0], Ranked(s[1..]));
    }
  }

  lemma {:induction false} InsertLength(x: Decision, s: seq<Decision>)
    ensures |Insert(x, s)| == |s| + 1
  {
    if s != [] {
      InsertLength(x, s[1..]);
    }
  }

  /** The first n of the ranking. */
  function Best(s: seq<Decision>, n: int): (r: seq<Decision>)
    requires 0 <= n <= |s|
    ensures |r| == n
  {
    RankedLength(s);
    Ranked(s)[..n]
  }

  function PlaceOne(ds: seq<Decision>): Placement {
    var fits, tights, unknowns := WithVerdict(ds, {Fit}), WithVerdict(ds, {Tight}), WithVerdict(ds, {Unknown});
    if fits != [] then Placement(Fit, ds, Ids(Best(fits, 1)))
    else if tights != [] then Placement(Tight, ds, Ids(Best(tights, 1)))
    else if unknowns != [] then Placement(Unknown, ds, [])
    else Placement(Insufficient, ds, [])
  }

  predicate AllFit(ds: seq<Decision>) {
    forall i :: 0 <= i < |ds| ==> ds[i].verdict == Fit
  }

  predicate AnyUnknownDemand(ds: seq<Decision>) {
    exists i :: 0 <= i < |ds| && ds[i].required == None
  }

  function PlaceMany(ds: seq<Decision>, n: int): Placement
    requires n >= 2
  {
    var eligible := WithVerdict(ds, {Fit, Tight});
    if AnyUnknownDemand(ds) then Placement(Unknown, ds, [])
    else if |eligible| < n then Placement(Insufficient, ds, [])
    else Placement(if AllFit(Best(eligible, n)) then Fit else Tight, ds, Ids(Best(eligible, n)))
  }

  /** The placement before the disk check. */
  function Place(gs: seq<Gpu>, n: int): Placement
    requires n >= 1
  {
    if n == 1 then PlaceOne(EvaluateAll(gs))
    else if |gs| < n then Placement(Insufficient, EvaluateAll(gs), [])
    else PlaceMany(EvaluateAll(Split(gs, n)), n)
  }

  const MIB := 1024 * 1024
  const CUSHION_MB := 1024

  function NeedDisk(bytes: int): int {
    AtLeastOne((bytes + MIB - 1) / MIB)
  }

  function DiskOk(diskFree: Option<int>, download: Option<int>): Option<bool> {
    if download == None || diskFree == None then None
    else Some(diskFree.value >= NeedDisk(download.value) + CUSHION_MB)
  }

  /** The disk check: too little space overrides every verdict. */
  function WithDisk(p: Placement, diskOk: Option<bool>): Fitness {
    if diskOk == Some(false) && p.verdict != Insufficient then Fitness(Insufficient, p.gpus, diskOk, [])
    else Fitness(p.verdict, p.gpus, diskOk, p.suggested)
  }

  function Aggregate(gs: seq<Gpu>, diskFree: Option<int>, download: Option<int>, n: int): Result<Fitness, Error> {
    if n < 1 then Err(NoTensorParallel)
    else if gs == [] then Err(NoGpu)
    else Ok(WithDisk(Place(gs, n), DiskOk(diskFree, download)))
  }

  // -------------------------------------------------------------- as it runs

  /** One of the list comprehensions over a verdict. */
  method Select(ds: seq<Decision>, vs: set<Verdict>) returns (r: seq<Decision>)
    ensures r == WithVerdict(ds, vs)
  {
    r := [];
    for i := 0 to |ds|
      invariant r == WithVerdict(ds[..i], vs)
    {
      assert ds[..i + 1][..i] == ds[..i];
      if ds[i].verdict in vs {
        r := r + [ds[i]];
      }
    }
    assert ds[..|ds|] == ds;
  }

  method EvaluateEach(gs: seq<Gpu>) returns (ds: seq<Decision>)
    ensures ds == EvaluateAll(gs)
  {
    ds := [];
    for i := 0 to |gs|
      invariant |ds| == i && forall k :: 0 <= k < i ==> ds[k] == Evaluate(gs[k])
    {
      ds := ds + [Evaluate(gs[i])];
    }
  }

  method SplitEach(gs: seq<Gpu>, n: int) returns (r: seq<Gpu>)
    requires n >= 1
    ensures r == Split(gs, n)
  {
    r := [];
    for i := 0 to |gs|
      invariant |r| == i && forall k :: 0 <= k < i ==> r[k] == SplitOne(gs[k], n)
    {
      var split := if gs[i].required == None then None else Some(AtLeastOne((gs[i].required.value + n - 1) / n));
      r := r + [gs[i].(required := split)];
    }
  }

  /** `aggregate_resource_fit`. */
  method AggregateResourceFit(gs: seq<Gpu>, diskFree: Option<int>, download: Option<int>, n: int) returns (r: Result<Fitness, Error>)
    ensures r == Aggregate(gs, diskFree, download, n)
  {
    hide Evaluate, EvaluateAll, Split, WithVerdict, Best, Ids, AllFit;
    if n < 1 {
      return Err(NoTensorParallel);
    }
    if gs == [] {
      return Err(NoGpu);
    }
    var overall, decisions, suggested: seq<string> := Insufficient, [], [];
    if n == 1 {
      decisions := EvaluateEach(gs);
      var fits := Select(decisions, {Fit});
      var tights := Select(decisions, {Tight});
      var unknowns := Select(decisions, {Unknown});
      if fits != [] {
        overall, suggested := Fit, Ids(Best(fits, 1));
      } else if tights != [] {
        overall, suggested := Tight, Ids(Best(tights, 1));
      } else if unknowns != [] {
        overall := Unknown;
      }
    } else if |gs| < n {
      decisions := EvaluateEach(gs);
    } else {
      var split := SplitEach(gs, n);
      decisions := EvaluateEach(split);
      if AnyUnknownDemand(decisions) {
        overall := Unknown;
      } else {
        var eligible := Select(decisions, {Fit, Tight});
        if |eligible| >= n {
          var chosen := Best(eligible, n);
          suggested := Ids(chosen);
          overall := if AllFit(chosen) then Fit else Tight;
        }
      }
    }
    var diskOk: Option<bool> := None;
    if download.Some? && diskFree.Some? {
      diskOk := Some(diskFree.value >= AtLeastOne((download.value + MIB - 1) / MIB) + CUSHION_MB);
      if !diskOk.value && overall in {Fit, Tight, Unknown} {
        overall, suggested := Insufficient, [];
      }
    }
    r := Ok(Fitness(overall, decisions, diskOk, suggested));
  }
}
