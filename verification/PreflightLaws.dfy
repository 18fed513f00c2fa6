/** What the preflight promises: exact attribution and conservation of the source's memory,
    and what freeing it would achieve. */
module PreflightLaws {
  import opened Prelude
  import opened Preflight

  // ------------------------------------------------------------ attribution

  /** A process is the source's when it names a deployment, up to the case of letters the
      source, and reports memory; a negative amount counts as none. */
  lemma AttributedIff(p: Process, source: string)
    ensures Attributed(p, source).Some? <==>
              p.Process? && p.deployment.Some? && p.used.Some? && SameLetters(p.deployment.value, source)
    ensures Attributed(p, source).Some? ==>
              Attributed(p, source).value == if p.used.value < 0 then 0 else p.used.value
  {
    if p.Process? && p.deployment.Some? {
      LowerMeans(p.deployment.value, source);
    }
    hide Lower;
  }

  /** The memory a process holds for the source. */
  function Memory(p: Process, source: string): int {
    if p.Process? && p.deployment.Some? && p.used.Some? && SameLetters(p.deployment.value, source) && p.used.value > 0
    then p.used.value else 0
  }

  function MemorySum(ps: seq<Process>, source: string): int {
    if ps == [] then 0 else MemorySum(ps[..|ps| - 1], source) + Memory(ps[|ps| - 1], source)
  }

  /** The memory a listed GPU holds for the source; a GPU without a list of processes holds
      none. */
  function MemoryOn(item: Item, source: string): int {
    if item.Item? && item.processes.Some? then MemorySum(item.processes.value, source) else 0
  }

  lemma {:induction false} SumIsMemory(ps: seq<Process>, source: string)
    ensures ProcessSum(ps, source) == MemorySum(ps, source)
  {
    hide Attributed, Memory;
    if ps != [] {
      SumIsMemory(ps[..|ps| - 1], source);
      AmountIsMemory(ps[|ps| - 1], source);
    }
  }

  lemma AmountIsMemory(p: Process, source: string)
    ensures Amount(p, source) == Memory(p, source)
  {
    AttributedIff(p, source);
    hide Attributed;
  }

  lemma {:induction false} ItemIsMemory(item: Item, source: string)
    ensures ProcessSum(ProcessesOf(item), source) == MemoryOn(item, source)
  {
    SumIsMemory(ProcessesOf(item), source);
  }

  /** The item is the GPU of some device. */
  predicate OfDevice(item: Item, ds: seq<Device>) {
    item.Item? && exists i :: 0 <= i < |ds| && ds[i].uuid == Strip(item.uuid)
  }

  /** The source is found exactly when some GPU of a device lists a process of it. */
  lemma {:induction false} FoundIff(items: seq<Item>, ds: Devices, source: string)
    ensures HasSourceProcess(items, Owners(ds), source) <==>
              exists i, j :: 0 <= i < |items| && OfDevice(items[i], ds) && items[i].processes.Some? && 0 <= j < |items[i].processes.value|
                             && Attributed(items[i].processes.value[j], source).Some?
  {
    hide Strip, Owners, Attributed;
    forall item: Item ensures OwnerOf(item, Owners(ds)).Some? <==> OfDevice(item, ds) {
      OwnedIff(item, ds);
    }
    if HasSourceProcess(items, Owners(ds), source) {
      var i, j :| 0 <= i < |items| && OwnerOf(items[i], Owners(ds)).Some? && 0 <= j < |ProcessesOf(items[i])|
                  && Attributed(ProcessesOf(items[i])[j], source).Some?;
      assert OfDevice(items[i], ds) && Attributed(items[i].processes.value[j], source).Some?;
    }
    if i, j :| 0 <= i < |items| && OfDevice(items[i], ds) && items[i].processes.Some? && 0 <= j < |items[i].processes.value|
               && Attributed(items[i].processes.value[j], source).Some? {
      assert OwnerOf(items[i], Owners(ds)).Some? && Attributed(ProcessesOf(items[i])[j], source).Some?;
    }
  }

  lemma {:induction false} OwnedIff(item: Item, ds: Devices)
    ensures OwnerOf(item, Owners(ds)).Some? <==> OfDevice(item, ds)
  {
    hide Strip, Owners;
    if OwnerOf(item, Owners(ds)).Some? {
      OwnersAreDevices(ds, Strip(item.uuid));
    }
    if i :| item.Item? && 0 <= i < |ds| && ds[i].uuid == Strip(item.uuid) {
      OwnerWins(ds, i);
    }
  }

  /** The device an UUID belongs to is the last one listed with it. */
  predicate Wins(ds: seq<Device>, i: nat)
    requires i < |ds|
  {
    forall j :: i < j < |ds| ==> ds[j].uuid != ds[i].uuid
  }

  lemma {:induction false} OwnerWins(ds: seq<Device>, i: nat)
    requires i < |ds| && DistinctDevices(ds)
    ensures ds[i].uuid in Owners(ds)
    ensures Owners(ds)[ds[i].uuid] == ds[i].id <==> Wins(ds, i)
  {
    var last := |ds| - 1;
    if i < last {
      var init := ds[..last];
      OwnerWins(init, i);
      assert ds[last].uuid == ds[i].uuid ==> !Wins(ds, i);
      assert ds[last].uuid != ds[i].uuid ==> (Wins(ds, i) <==> Wins(init, i));
    }
  }

  /** The source's memory on all listed items with this UUID. */
  function UuidSum(items: seq<Item>, source: string, u: string): int {
    if items == [] then 0
    else
      var last := items[|items| - 1];
      UuidSum(items[..|items| - 1], source, u)
      + if last.Item? && Strip(last.uuid) == u then MemoryOn(last, source) else 0
  }

  lemma {:induction false} WinnerGetsAll(items: seq<Item>, ds: seq<Device>, source: string, i: nat)
    requires DistinctDevices(ds) && i < |ds|
    ensures DeviceSum(items, Owners(ds), source, ds[i].id) == if Wins(ds, i) then UuidSum(items, source, ds[i].uuid) else 0
  {
    hide Wins, Owners, Strip, ProcessSum, MemoryOn;
    if items != [] {
      WinnerGetsAll(items[..|items| - 1], ds, source, i);
      OwnerWins(ds, i);
      var last := items[|items| - 1];
      ItemIsMemory(last, source);
      if OwnerOf(last, Owners(ds)) == Some(ds[i].id) {
        OwnersAreDevices(ds, Strip(last.uuid));
      }
    }
  }

  /** A device is credited with exactly the source's memory on its GPU, if and only if it is
      the last device listed with that UUID or there is nothing to credit. */
  lemma {:induction false} CreditedIff(items: seq<Item>, ds: seq<Device>, source: string, i: nat)
    requires DistinctDevices(ds) && i < |ds|
    ensures DeviceSum(items, Owners(ds), source, ds[i].id) == UuidSum(items, source, ds[i].uuid) <==>
              Wins(ds, i) || UuidSum(items, source, ds[i].uuid) == 0
  {
    WinnerGetsAll(items, ds, source, i);
    hide Wins, Owners, DeviceSum, UuidSum;
  }

  // ------------------------------------------------------------ conservation

  function TotalCredited(items: seq<Item>, ds: seq<Device>, owners: map<string, string>, source: string): int {
    if ds == [] then 0
    else TotalCredited(items, ds[..|ds| - 1], owners, source) + DeviceSum(items, owners, source, ds[|ds| - 1].id)
  }

  /** The source's memory on all listed items that are some device's GPU. */
  function TotalListed(items: seq<Item>, ds: seq<Device>, source: string): int {
    if items == [] then 0
    else
      var last := items[|items| - 1];
      TotalListed(items[..|items| - 1], ds, source)
      + if OfDevice(last, ds) then MemoryOn(last, source) else 0
  }

  predicate Listed(ds: seq<Device>, d: string) {
    exists i :: 0 <= i < |ds| && ds[i].id == d
  }

  /** One more item adds its amount once: to its owner, if that is among the devices. */
  lemma {:induction false} OneMoreItem(items: seq<Item>, ds: seq<Device>, owners: map<string, string>, source: string)
    requires DistinctDevices(ds) && items != []
    ensures var last := items[|items| - 1];
            TotalCredited(items, ds, owners, source) == TotalCredited(items[..|items| - 1], ds, owners, source)
              + if OwnerOf(last, owners).Some? && Listed(ds, OwnerOf(last, owners).value) then ProcessSum(ProcessesOf(last), source) else 0
  {
    hide OwnerOf, ProcessSum, ProcessesOf;
    if ds != [] {
      var init, d := ds[..|ds| - 1], ds[|ds| - 1].id;
      OneMoreItem(items, init, owners, source);
      ListedSplit(ds, d);
      var owner := OwnerOf(items[|items| - 1], owners);
      if owner.Some? {
        ListedSplit(ds, owner.value);
      }
    }
  }

  lemma ListedSplit(ds: seq<Device>, d: string)
    requires ds != [] && DistinctDevices(ds)
    ensures Listed(ds, d) <==> Listed(ds[..|ds| - 1], d) || d == ds[|ds| - 1].id
    ensures !Listed(ds[..|ds| - 1], ds[|ds| - 1].id)
  {
    if Listed(ds, d) && d != ds[|ds| - 1].id {
      var i :| 0 <= i < |ds| && ds[i].id == d;
      assert ds[..|ds| - 1][i].id == d;
    }
    if Listed(ds[..|ds| - 1], d) {
      var i :| 0 <= i < |ds| - 1 && ds[..|ds| - 1][i].id == d;
      assert ds[i].id == d;
    }
    assert ds[|ds| - 1].id == ds[|ds| - 1].id;
  }

  /** Nothing is lost or counted twice: what the devices are credited with in total is the
      source's memory on all GPUs that belong to a device, shared UUIDs or not. */
  lemma {:induction false} TotalConserved(items: seq<Item>, ds: Devices, source: string)
    ensures TotalCredited(items, ds, Owners(ds), source) == TotalListed(items, ds, source)
  {
    hide OwnerOf, ProcessSum, ProcessesOf, MemoryOn, OfDevice;
    if items == [] {
      NothingCredited(ds, Owners(ds), source);
    } else {
      TotalConserved(items[..|items| - 1], ds, source);
      OneMoreItem(items, ds, Owners(ds), source);
      OwnerIsListed(items[|items| - 1], ds);
      OwnedIff(items[|items| - 1], ds);
      ItemIsMemory(items[|items| - 1], source);
    }
  }

  lemma {:induction false} NothingCredited(ds: seq<Device>, owners: map<string, string>, source: string)
    ensures TotalCredited([], ds, owners, source) == 0
  {
    if ds != [] {
      NothingCredited(ds[..|ds| - 1], owners, source);
    }
  }

  lemma {:induction false} OwnerIsListed(item: Item, ds: seq<Device>)
    ensures OwnerOf(item, Owners(ds)).Some? ==> Listed(ds, OwnerOf(item, Owners(ds)).value)
  {
    hide Strip, Owners;
    if OwnerOf(item, Owners(ds)).Some? {
      OwnersAreDevices(ds, Strip(item.uuid));
    }
  }

  // ----------------------------------------------------- order of the listing

  datatype Entry = Entry(item: Item, process: Process)

  function EntriesOf(item: Item, ps: seq<Process>): seq<Entry>
    requires item.Item?
  {
    if ps == [] then [] else EntriesOf(item, ps[..|ps| - 1]) + [Entry(item.(processes := None), ps[|ps| - 1])]
  }

  /** Every listed process with the GPU it is listed under. */
  function Entries(items: seq<Item>): seq<Entry> {
    if items == [] then []
    else Entries(items[..|items| - 1])
         + if items[|items| - 1].Item? then EntriesOf(items[|items| - 1], ProcessesOf(items[|items| - 1])) else []
  }

  function EntryAmount(e: Entry, owners: map<string, string>, source: string, d: string): int {
    if OwnerOf(e.item, owners) == Some(d) then Amount(e.process, source) else 0
  }

  function EntrySum(es: seq<Entry>, owners: map<string, string>, source: string, d: string): int {
    if es == [] then 0 else EntrySum(es[..|es| - 1], owners, source, d) + EntryAmount(es[|es| - 1], owners, source, d)
  }

  lemma {:induction false} EntrySumAdds(xs: seq<Entry>, ys: seq<Entry>, owners: map<string, string>, source: string, d: string)
    ensures EntrySum(xs + ys, owners, source, d) == EntrySum(xs, owners, source, d) + EntrySum(ys, owners, source, d)
    decreases |ys|
  {
    if ys == [] {
      assert xs + ys == xs;
    } else {
      EntrySumAdds(xs, ys[..|ys| - 1], owners, source, d);
      assert (xs + ys)[..|xs + ys| - 1] == xs + ys[..|ys| - 1];
    }
  }

  lemma {:induction false} EntriesOfSum(item: Item, ps: seq<Process>, owners: map<string, string>, source: string, d: string)
    requires item.Item?
    ensures EntrySum(EntriesOf(item, ps), owners, source, d) == if OwnerOf(item, owners) == Some(d) then ProcessSum(ps, source) else 0
  {
    if ps != [] {
      EntriesOfSum(item, ps[..|ps| - 1], owners, source, d);
      var init := EntriesOf(item, ps[..|ps| - 1]);
      assert EntriesOf(item, ps)[..|init|] == init;
    }
  }

  lemma {:induction false} EntriesSum(items: seq<Item>, owners: map<string, string>, source: string, d: string)
    ensures EntrySum(Entries(items), owners, source, d) == DeviceSum(items, owners, source, d)
  {
    hide OwnerOf, ProcessSum, ProcessesOf;
    if items != [] {
      var last := items[|items| - 1];
      EntriesSum(items[..|items| - 1], owners, source, d);
      if last.Item? {
        EntrySumAdds(Entries(items[..|items| - 1]), EntriesOf(last, ProcessesOf(last)), owners, source, d);
        EntriesOfSum(last, ProcessesOf(last), owners, source, d);
      } else {
        JunkOwnsNothing(last, owners);
        assert Entries(items[..|items| - 1]) + [] == Entries(items[..|items| - 1]);
      }
    }
  }

  lemma JunkOwnsNothing(item: Item, owners: map<string, string>)
    ensures item.Junk? ==> OwnerOf(item, owners) == None
  {
  }

  lemma {:induction false} EntryRemoved(ys: seq<Entry>, k: nat, owners: map<string, string>, source: string, d: string)
    requires k < |ys|
    ensures EntrySum(ys, owners, source, d) == EntrySum(ys[..k] + ys[k + 1..], owners, source, d) + EntryAmount(ys[k], owners, source, d)
    ensures multiset(ys[..k] + ys[k + 1..]) == multiset(ys) - multiset{ys[k]}
  {
    hide EntryAmount;
    assert ys == ys[..k] + [ys[k]] + ys[k + 1..];
    EntrySumAdds(ys[..k], [ys[k]], owners, source, d);
    EntrySumAdds(ys[..k] + [ys[k]], ys[k + 1..], owners, source, d);
    EntrySumAdds(ys[..k], ys[k + 1..], owners, source, d);
    assert [ys[k]][..0] == [];
  }

  lemma {:induction false} EntrySumByMultiset(xs: seq<Entry>, ys: seq<Entry>, owners: map<string, string>, source: string, d: string)
    requires multiset(xs) == multiset(ys)
    ensures EntrySum(xs, owners, source, d) == EntrySum(ys, owners, source, d)
    decreases |xs|
  {
    hide EntrySum, EntryAmount;
    if xs == [] {
      assert |ys| == |multiset(ys)| == 0;
    } else {
      var x := xs[0];
      assert x in multiset(xs);
      var k :| 0 <= k < |ys| && ys[k] == x;
      EntryRemoved(ys, k, owners, source, d);
      EntryRemoved(xs, 0, owners, source, d);
      EntrySumByMultiset(xs[..0] + xs[1..], ys[..k] + ys[k + 1..], owners, source, d);
    }
  }

  /** In whatever order GPUs and their processes are listed, every device is credited with
      the same amount. */
  lemma {:induction false} ListingOrderIrrelevant(a: seq<Item>, b: seq<Item>, ds: Devices, source: string, d: string)
    requires multiset(Entries(a)) == multiset(Entries(b))
    ensures DeviceSum(a, Owners(ds), source, d) == DeviceSum(b, Owners(ds), source, d)
  {
    EntriesSum(a, Owners(ds), source, d);
    EntriesSum(b, Owners(ds), source, d);
    EntrySumByMultiset(Entries(a), Entries(b), Owners(ds), source, d);
  }

  // ------------------------------------------------------------ the verdict

  /** A preflight is refused exactly without GPUs or with a negative amount anywhere. */
  lemma RefusedIff(gs: seq<Input>)
    ensures Aggregate(gs) == Err(NoGpu) <==> gs == []
    ensures Aggregate(gs).Ok? <==>
              gs != [] && forall i :: 0 <= i < |gs| ==> gs[i].required >= 0 && gs[i].free >= 0 && gs[i].reclaimable >= 0 && gs[i].margin >= 0
  {
    hide TotalsOf, Overall;
    assert forall g :: NonNegative(g) <==> g.required >= 0 && g.free >= 0 && g.reclaimable >= 0 && g.margin >= 0;
  }

  /** What is reported of one GPU: what is available now and once the source is stopped, beyond
      the margin, and the verdict: HOT when the demand fits now, COLD_ONLY when it fits then. */
  lemma DecisionMeans(gs: seq<Input>, i: nat)
    requires Aggregate(gs).Ok? && i < |gs|
    ensures var s, g := Aggregate(gs).value, gs[i];
            && |s.gpus| == |gs| && s.gpus[i].input == g && s.margin == gs[0].margin
            && s.gpus[i].availableHot + g.margin == g.free && s.gpus[i].availableAfter + g.margin == g.free + g.reclaimable
            && (s.gpus[i].verdict.Hot? <==> s.gpus[i].availableHot >= g.required)
            && (s.gpus[i].verdict.Insufficient? <==> s.gpus[i].availableHot < g.required && s.gpus[i].availableAfter < g.required)
  {
    hide TotalsOf, Overall;
  }

  /** The result is HOT exactly when every GPU is, and INSUFFICIENT exactly when some GPU
      is; no surplus of one GPU makes up for another. */
  lemma OverallMeans(gs: seq<Input>)
    requires Aggregate(gs).Ok?
    ensures var s := Aggregate(gs).value;
            && (s.verdict.Hot? <==> forall i :: 0 <= i < |gs| ==> gs[i].free >= gs[i].required + gs[i].margin)
            && (s.verdict.Insufficient? <==> exists i :: 0 <= i < |gs| && gs[i].free + gs[i].reclaimable < gs[i].required + gs[i].margin)
  {
    var ds := DecideAll(gs);
    hide TotalsOf;
    if exists i :: 0 <= i < |gs| && gs[i].free + gs[i].reclaimable < gs[i].required + gs[i].margin {
      var i :| 0 <= i < |gs| && gs[i].free + gs[i].reclaimable < gs[i].required + gs[i].margin;
      assert ds[i].verdict == Insufficient;
    }
    if exists i :: 0 <= i < |gs| && gs[i].free < gs[i].required + gs[i].margin {
      var i :| 0 <= i < |gs| && gs[i].free < gs[i].required + gs[i].margin;
      assert ds[i].verdict != Hot;
    }
    assert Any(ds, Insufficient) ==> exists i :: 0 <= i < |gs| && ds[i].verdict == Insufficient;
    assert Any(ds, ColdOnly) ==> exists i :: 0 <= i < |gs| && ds[i].verdict == ColdOnly;
  }

  function Freed(g: Input): Input {
    g.(free := g.free + g.reclaimable, reclaimable := 0)
  }

  function FreedAll(gs: seq<Input>): (r: seq<Input>)
    ensures |r| == |gs| && forall i :: 0 <= i < |gs| ==> r[i] == Freed(gs[i])
  {
    seq(|gs|, i requires 0 <= i < |gs| => Freed(gs[i]))
  }

  /** Evaluating again once exactly the reclaimable memory was freed gives HOT, on every GPU,
      if and only if the first result was not INSUFFICIENT. */
  lemma HotOnceFreedIff(gs: seq<Input>)
    requires Aggregate(gs).Ok?
    ensures Aggregate(FreedAll(gs)).Ok?
    ensures Aggregate(FreedAll(gs)).value.verdict.Hot? <==> !Aggregate(gs).value.verdict.Insufficient?
    ensures forall i :: 0 <= i < |gs| && !Aggregate(gs).value.verdict.Insufficient? ==> Aggregate(FreedAll(gs)).value.gpus[i].verdict.Hot?
  {
    var hs := FreedAll(gs);
    assert Aggregate(hs).Ok? by {
      forall i | 0 <= i < |hs| ensures NonNegative(hs[i]) {
        assert NonNegative(gs[i]);
      }
    }
    OverallMeans(gs);
    OverallMeans(hs);
  }

  lemma {:induction false} SumsAdd(ds: seq<Decision>)
    requires forall i :: 0 <= i < |ds| ==> ds[i] == Decide(ds[i].input)
    ensures TotalsOf(ds).availableAfter == TotalsOf(ds).availableHot + TotalsOf(ds).reclaimable
  {
    if ds != [] {
      SumsAdd(ds[..|ds| - 1]);
    }
  }

  /** The totals balance: the memory available after freeing is what is available now and
      what can be freed. */
  lemma TotalsBalance(gs: seq<Input>)
    requires Aggregate(gs).Ok?
    ensures var t := Aggregate(gs).value.totals; t.availableAfter == t.availableHot + t.reclaimable
  {
    SumsAdd(DecideAll(gs));
  }

  lemma TotalsOfTwo(a: Decision, b: Decision)
    ensures TotalsOf([a, b]) == Totals(a.input.required + b.input.required, a.availableHot + b.availableHot,
                                       a.input.reclaimable + b.input.reclaimable, a.availableAfter + b.availableAfter)
  {
    var one, two := [a], [a, b];
    assert one[..|one| - 1] == [] && two[..|two| - 1] == one;
    assert TotalsOf(one) == Totals(a.input.required, a.availableHot, a.input.reclaimable, a.availableAfter);
  }

  /** Too small a total does decide: if what is available now and what can be freed are
      together less than the demand, the result is INSUFFICIENT. */
  lemma ShortTotalsDecide(gs: seq<Input>)
    requires Aggregate(gs).Ok?
    requires var t := Aggregate(gs).value.totals; t.availableHot + t.reclaimable < t.required
    ensures Aggregate(gs).value.verdict.Insufficient?
  {
    TotalsBalance(gs);
    OverallMeans(gs);
    if forall i :: 0 <= i < |gs| ==> gs[i].free + gs[i].reclaimable >= gs[i].required + gs[i].margin {
      EnoughInTotal(DecideAll(gs));
    }
  }

  lemma {:induction false} EnoughInTotal(ds: seq<Decision>)
    requires forall i :: 0 <= i < |ds| ==> ds[i].availableAfter >= ds[i].input.required
    ensures TotalsOf(ds).availableAfter >= TotalsOf(ds).required
  {
    if ds != [] {
      EnoughInTotal(ds[..|ds| - 1]);
    }
  }

  /** But no total is large enough to decide the other way: for every m there are GPUs whose
      free memory covers the demand m times over, with the result INSUFFICIENT. */
  lemma TotalsDoNotDecide(m: nat) returns (gs: seq<Input>)
    ensures Aggregate(gs).Ok? && Aggregate(gs).value.verdict.Insufficient?
    ensures Aggregate(gs).value.totals.required > 0
    ensures Aggregate(gs).value.totals.availableHot >= m * Aggregate(gs).value.totals.required
  {
    var a, b := Input("a", 10, 20 * m + 10, 0, 0), Input("b", 10, 5, 0, 0);
    gs := [a, b];
    assert DecideAll(gs) == [Decide(a), Decide(b)];
    TotalsOfTwo(Decide(a), Decide(b));
    hide TotalsOf;
    assert Any([Decide(a), Decide(b)], Insufficient) by {
      assert [Decide(a), Decide(b)][1].verdict == Insufficient;
    }
    assert m * 20 == 20 * m;
  }
}
