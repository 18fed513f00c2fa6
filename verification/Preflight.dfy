/** Resource preflight of a switch: a verdict for each GPU, their aggregate, and the memory
    that stopping the source would free. Source: `domain/preflight.py`. */
module Preflight {
  import opened Prelude

  // -------------------------------------------------------------- the verdict

  datatype Input = Input(id: string, required: int, free: int, reclaimable: int, margin: int)

  datatype Verdict = Hot | ColdOnly | Insufficient

  datatype Decision = Decision(input: Input, availableHot: int, availableAfter: int, verdict: Verdict)

  datatype Summary = Summary(verdict: Verdict, totals: Totals, margin: int, gpus: seq<Decision>)

  datatype Error = Negative | NoGpu

  predicate NonNegative(g: Input) {
    g.required >= 0 && g.free >= 0 && g.reclaimable >= 0 && g.margin >= 0
  }

  function VerdictOf(g: Input): Verdict {
    var need := g.required + g.margin;
    if g.free >= need then Hot else if g.free + g.reclaimable >= need then ColdOnly else Insufficient
  }

  /** `evaluate_gpu` on an input that passes its checks. */
  function Decide(g: Input): Decision {
    Decision(g, g.free - g.margin, g.free + g.reclaimable - g.margin, VerdictOf(g))
  }

  function DecideAll(gs: seq<Input>): (ds: seq<Decision>)
    ensures |ds| == |gs| && forall i :: 0 <= i < |gs| ==> ds[i] == Decide(gs[i])
  {
    seq(|gs|, i requires 0 <= i < |gs| => Decide(gs[i]))
  }

  datatype Totals = Totals(required: int, availableHot: int, reclaimable: int, availableAfter: int)

  /** The four sums of the aggregate. */
  function TotalsOf(ds: seq<Decision>): Totals {
    if ds == [] then Totals(0, 0, 0, 0)
    else
      var t, d := TotalsOf(ds[..|ds| - 1]), ds[|ds| - 1];
      Totals(t.required + d.input.required, t.availableHot + d.availableHot, t.reclaimable + d.input.reclaimable,
             t.availableAfter + d.availableAfter)
  }

  predicate Any(ds: seq<Decision>, v: Verdict) {
    exists i :: 0 <= i < |ds| && ds[i].verdict == v
  }

  function Overall(ds: seq<Decision>): Verdict {
    if Any(ds, Insufficient) then Insufficient else if Any(ds, ColdOnly) then ColdOnly else Hot
  }

  /** `aggregate_preflight`. */
  function Aggregate(gs: seq<Input>): Result<Summary, Error> {
    if gs == [] then Err(NoGpu)
    else if exists i :: 0 <= i < |gs| && !NonNegative(gs[i]) then Err(Negative)
    else
      var ds := DecideAll(gs);
      Ok(Summary(Overall(ds), TotalsOf(ds), ds[0].input.margin, ds))
  }

  // ---------------------------------------------------- attributing memory

  /** The device to UUID dictionary in its insertion order. */
  datatype Device = Device(id: string, uuid: string)

  predicate DistinctDevices(ds: seq<Device>) {
    forall i, j :: 0 <= i < j < |ds| ==> ds[i].id != ds[j].id
  }

  type Devices = ds: seq<Device> | DistinctDevices(ds) witness []

  /** What an agent reports. `Junk` is anything that is not a dictionary; a list of
      processes that is no list is `None`, a missing one is empty. */
  datatype Process = JunkProcess | Process(deployment: Option<string>, used: Option<int>)
  datatype Item = Junk | Item(uuid: string, processes: Option<seq<Process>>)

  /** The memory a process adds when it belongs to the source. */
  function Attributed(p: Process, source: string): Option<int> {
    match p
    case Process(Some(d), Some(used)) => if Lower(d) == Lower(source) then Some(if used < 0 then 0 else used) else None
    case _ => None
  }

  function Amount(p: Process, source: string): int {
    if Attributed(p, source).Some? then Attributed(p, source).value else 0
  }

  /** The inverted dictionary: a later device wins a shared UUID. */
  function Owners(ds: seq<Device>): map<string, string> {
    if ds == [] then map[] else Owners(ds[..|ds| - 1])[ds[|ds| - 1].uuid := ds[|ds| - 1].id]
  }

  function OwnerOf(item: Item, owners: map<string, string>): Option<string> {
    if item.Item? && Strip(item.uuid) in owners then Some(owners[Strip(item.uuid)]) else None
  }

  function ProcessesOf(item: Item): seq<Process> {
    if item.Item? && item.processes.Some? then item.processes.value else []
  }

  function ProcessSum(ps: seq<Process>, source: string): int {
    if ps == [] then 0 else ProcessSum(ps[..|ps| - 1], source) + Amount(ps[|ps| - 1], source)
  }

  /** The source's memory on the listed items that device d owns. */
  function DeviceSum(items: seq<Item>, owners: map<string, string>, source: string, d: string): int {
    if items == [] then 0
    else
      var last := items[|items| - 1];
      DeviceSum(items[..|items| - 1], owners, source, d)
      + if OwnerOf(last, owners) == Some(d) then ProcessSum(ProcessesOf(last), source) else 0
  }

  predicate HasSourceProcess(items: seq<Item>, owners: map<string, string>, source: string) {
    exists i, j :: 0 <= i < |items| && OwnerOf(items[i], owners).Some? && 0 <= j < |ProcessesOf(items[i])|
                   && Attributed(ProcessesOf(items[i])[j], source).Some?
  }

  // ------------------------------------------------------------- as they run

  method Invert(ds: Devices) returns (owners: map<string, string>)
    ensures owners == Owners(ds)
  {
    owners := map[];
    for i := 0 to |ds|
      invariant owners == Owners(ds[..i])
    {
      owners := owners[ds[i].uuid := ds[i].id];
      assert ds[..i + 1][..i] == ds[..i];
    }
    assert ds[..|ds|] == ds;
  }

  lemma {:induction false} OwnersAreDevices(ds: seq<Device>, u: string)
    requires u in Owners(ds)
    ensures exists i :: 0 <= i < |ds| && ds[i].uuid == u && ds[i].id == Owners(ds)[u]
  {
    if u != ds[|ds| - 1].uuid {
      OwnersAreDevices(ds[..|ds| - 1], u);
      var i :| 0 <= i < |ds| - 1 && ds[i].uuid == u && ds[i].id == Owners(ds)[u];
    }
  }

  /** Every device has its sum over the items, and there are no other keys. */
  ghost predicate Credits(r: map<string, int>, ds: seq<Device>, items: seq<Item>, owners: map<string, string>, source: string) {
    && (forall d :: d in r <==> exists i :: 0 <= i < |ds| && ds[i].id == d)
    && forall d :: d in r ==> r[d] == DeviceSum(items, owners, source, d)
  }

  lemma {:induction false} CreditStep(r: map<string, int>, ds: seq<Device>, items: seq<Item>, i: nat, owners: map<string, string>, source: string)
    requires i < |items| && owners == Owners(ds) && Credits(r, ds, items[..i], owners, source)
    ensures OwnerOf(items[i], owners).None? || ProcessesOf(items[i]) == [] ==> Credits(r, ds, items[..i + 1], owners, source)
    ensures OwnerOf(items[i], owners).Some? ==>
              var d := OwnerOf(items[i], owners).value;
              d in r && Credits(r[d := r[d] + ProcessSum(ProcessesOf(items[i]), source)], ds, items[..i + 1], owners, source)
  {
    hide Strip, Owners, ProcessesOf;
    assert items[..i + 1][..i] == items[..i];
    if OwnerOf(items[i], owners).Some? {
      OwnersAreDevices(ds, Strip(items[i].uuid));
    }
  }

  /** `reclaimable_by_gpu_from_resources`: for every device what it owns, and whether any
      process of the source was found at all. */
  method ReclaimableByGpu(gpus: Option<seq<Item>>, source: string, ds: Devices) returns (r: map<string, int>, found: bool)
    ensures Credits(r, ds, if gpus.Some? then gpus.value else [], Owners(ds), source)
    ensures found <==> gpus.Some? && HasSourceProcess(gpus.value, Owners(ds), source)
  {
    hide Attributed, Strip, Owners, HasSourceProcess, Credits, DeviceSum, ProcessSum;
    r := map i | 0 <= i < |ds| :: ds[i].id := 0;
    InitialCredits(r, ds, Owners(ds), source);
    var owners := Invert(ds);
    found := false;
    if gpus.None? {
      return;
    }
    var items := gpus.value;
    NoSourceProcess(owners, source);
    assert items[..0] == [];
    for i := 0 to |items|
      invariant Credits(r, ds, items[..i], owners, source)
      invariant found <==> HasSourceProcess(items[..i], owners, source)
    {
      var item := items[i];
      CreditStep(r, ds, items, i, owners, source);
      FoundStep(items, i, owners, source);
      if item.Item? && Strip(item.uuid) in owners && item.processes.Some? {
        var any;
        r, any := AddProcesses(r, owners[Strip(item.uuid)], item.processes.value, source);
        found := found || any;
      }
    }
    assert items[..|items|] == items;
  }

  lemma InitialCredits(r: map<string, int>, ds: seq<Device>, owners: map<string, string>, source: string)
    requires r == map i | 0 <= i < |ds| :: ds[i].id := 0
    ensures Credits(r, ds, [], owners, source)
  {
  }

  lemma NoSourceProcess(owners: map<string, string>, source: string)
    ensures !HasSourceProcess([], owners, source)
  {
  }

  /** The inner loop: the processes of one GPU. */
  method AddProcesses(was: map<string, int>, device: string, ps: seq<Process>, source: string) returns (r: map<string, int>, found: bool)
    requires device in was
    ensures r == was[device := was[device] + ProcessSum(ps, source)]
    ensures found <==> exists k :: 0 <= k < |ps| && Attributed(ps[k], source).Some?
  {
    hide Attributed;
    r, found := was, false;
    for j := 0 to |ps|
      invariant device in r && r == was[device := was[device] + ProcessSum(ps[..j], source)]
      invariant found <==> exists k :: 0 <= k < j && Attributed(ps[k], source).Some?
    {
      var amount := Attributed(ps[j], source);
      assert ps[..j + 1][..j] == ps[..j];
      if amount.Some? {
        r := r[device := r[device] + amount.value];
        found := true;
      }
    }
    assert ps[..|ps|] == ps;
  }

  lemma FoundStep(items: seq<Item>, i: nat, owners: map<string, string>, source: string)
    requires i < |items|
    ensures HasSourceProcess(items[..i + 1], owners, source) <==>
              HasSourceProcess(items[..i], owners, source)
              || (OwnerOf(items[i], owners).Some? && exists k :: 0 <= k < |ProcessesOf(items[i])| && Attributed(ProcessesOf(items[i])[k], source).Some?)
  {
    hide OwnerOf, ProcessesOf, Attributed;
    var a, b := items[..i], items[..i + 1];
    if HasSourceProcess(a, owners, source) {
      var k, j :| 0 <= k < |a| && OwnerOf(a[k], owners).Some? && 0 <= j < |ProcessesOf(a[k])| && Attributed(ProcessesOf(a[k])[j], source).Some?;
      assert b[k] == a[k];
    }
    if OwnerOf(items[i], owners).Some? && exists k :: 0 <= k < |ProcessesOf(items[i])| && Attributed(ProcessesOf(items[i])[k], source).Some? {
      assert b[i] == items[i];
    }
    if HasSourceProcess(b, owners, source) {
      var k, j :| 0 <= k < |b| && OwnerOf(b[k], owners).Some? && 0 <= j < |ProcessesOf(b[k])| && Attributed(ProcessesOf(b[k])[j], source).Some?;
      assert k < i ==> a[k] == b[k];
    }
  }
}
