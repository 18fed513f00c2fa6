/** The round trip of creation from a cache: what is stored reads back as what was asked
    for, so that the same request recognises its own earlier result. */
module CacheDeployLaws {
  import opened Prelude
  import opened CacheDeploy

  // ---------------------------------------------------- tool calling fields

  lemma LowerHermes()
    ensures Lower("hermes") == "hermes"
  {
    assert Lower("mes") == "mes";
  }

  lemma StripHermes()
    ensures Strip("hermes") == "hermes"
  {
  }

  lemma ParserValue(v: Value)
    ensures NormalizeValue(PARSER, v) == if v.Text? then TextOrNull(Lower(Strip(v.s))) else v
  {
    hide Strip, Lower, IntOf, FloatOf, Str, TextOrNull;
  }

  /** The configuration is accepted exactly when the flag is absent, null or a boolean, the
      parser is absent, null, blank or `hermes` in any case, and the parser is named exactly
      when the flag is true. What is stored holds no null and no blank, adds no key, leaves
      every other key alone, and is stored unchanged when normalised again. */
  lemma ToolsNormalized(cfg: Config)
    ensures NormalizeTools(cfg).Ok? <==>
              && (Get(cfg, ENABLE).Null? || Get(cfg, ENABLE).Flag?)
              && ParserOf(Get(cfg, PARSER)).Ok?
              && (Get(cfg, ENABLE) == Flag(true) <==> ParserOf(Get(cfg, PARSER)).value == Some("hermes"))
    ensures NormalizeTools(cfg).Err? ==> NormalizeTools(cfg) == Err(Invalid)
    ensures NormalizeTools(cfg).Ok? ==>
              var out := NormalizeTools(cfg).value;
              && out.Keys <= cfg.Keys
              && (forall k :: k in cfg && k != ENABLE && k != PARSER ==> k in out && out[k] == cfg[k])
              && Get(out, ENABLE) == Get(cfg, ENABLE)
              && (PARSER in out <==> Get(cfg, ENABLE) == Flag(true))
              && (PARSER in out ==> out[PARSER] == Text("hermes"))
              && NormalizeTools(out) == Ok(out)
  {
    LowerHermes();
    StripHermes();
    hide Strip, Lower;
    if NormalizeTools(cfg).Ok? {
      var out := NormalizeTools(cfg).value;
      assert NormalizeTools(out).value == out;
    }
  }

  /** Normalising the stored configuration gives the values of the requested one. */
  lemma CriticalSurvives(cfg: Config)
    requires NormalizeTools(cfg).Ok?
    ensures CriticalConfig(NormalizeTools(cfg).value) == CriticalConfig(cfg)
  {
    ToolsNormalized(cfg);
    var out := NormalizeTools(cfg).value;
    forall k | k in CRITICAL_KEYS ensures NormalizeValue(k, Get(out, k)) == NormalizeValue(k, Get(cfg, k)) {
      ValueSurvives(cfg, out, k);
    }
  }

  lemma ValueSurvives(cfg: Config, out: Config, k: string)
    requires NormalizeTools(cfg) == Ok(out)
    ensures NormalizeValue(k, Get(out, k)) == NormalizeValue(k, Get(cfg, k))
  {
    ToolsNormalized(cfg);
    hide NormalizeValue, NormalizeTools, Strip, Lower;
    if k == PARSER {
      LowerHermes();
      StripHermes();
      ParserValue(Get(out, k));
      ParserValue(Get(cfg, k));
    } else {
      assert k != ENABLE ==> (k in out <==> k in cfg);
    }
  }

  // ------------------------------------------------------------- GPU order

  predicate Ascending(s: seq<Assignment>) {
    forall i, j :: 0 <= i < j < |s| ==> s[i].order <= s[j].order
  }

  lemma {:induction false} InsertKeeps(x: Assignment, s: seq<Assignment>)
    ensures multiset(InsertByOrder(x, s)) == multiset(s) + multiset{x}
  {
    if s != [] && s[0].order < x.order {
      InsertKeeps(x, s[1..]);
      assert s == [s[0]] + s[1..];
    }
  }

  lemma {:induction false} InsertAscends(x: Assignment, s: seq<Assignment>)
    requires Ascending(s)
    ensures Ascending(InsertByOrder(x, s))
  {
    if s != [] && s[0].order < x.order {
      var rest := InsertByOrder(x, s[1..]);
      InsertAscends(x, s[1..]);
      InsertKeeps(x, s[1..]);
      forall i | 0 <= i < |rest| ensures s[0].order <= rest[i].order {
        assert rest[i] in multiset(rest);
        assert rest[i] == x || rest[i] in s[1..];
      }
    }
  }

  lemma {:induction false} SortedByOrder(s: seq<Assignment>)
    ensures Ascending(ByOrder(s)) && multiset(ByOrder(s)) == multiset(s)
  {
    hide Ascending;
    if s == [] {
      NothingAscends();
    } else {
      SortedByOrder(s[1..]);
      InsertAscends(s[0], ByOrder(s[1..]));
      InsertKeeps(s[0], ByOrder(s[1..]));
      assert s == [s[0]] + s[1..];
    }
  }

  lemma NothingAscends()
    ensures Ascending([])
  {
  }

  /** An ascending list with all orders different is determined by its elements. */
  lemma {:induction false} AscendingUnique(a: seq<Assignment>, b: seq<Assignment>)
    requires Ascending(a) && Ascending(b) && multiset(a) == multiset(b)
    requires forall i, j :: 0 <= i < j < |b| ==> b[i].order != b[j].order
    ensures a == b
    decreases |a|
  {
    assert |a| == |multiset(a)| == |multiset(b)| == |b|;
    if a != [] {
      LeastIsFirst(a, b);
      WithoutFirst(a);
      WithoutFirst(b);
      hide Ascending;
      AscendingUnique(a[1..], b[1..]);
      assert a == [a[0]] + a[1..] && b == [b[0]] + b[1..];
    }
  }

  lemma WithoutFirst(a: seq<Assignment>)
    requires a != [] && Ascending(a)
    ensures Ascending(a[1..]) && multiset(a[1..]) == multiset(a) - multiset{a[0]}
  {
    assert a == [a[0]] + a[1..];
  }

  lemma LeastIsFirst(a: seq<Assignment>, b: seq<Assignment>)
    requires a != [] && b != [] && Ascending(a) && Ascending(b) && multiset(a) == multiset(b)
    requires forall i, j :: 0 <= i < j < |b| ==> b[i].order != b[j].order
    ensures a[0] == b[0]
  {
    assert b[0] in multiset(b);
    assert b[0] in a;
    assert a[0] in multiset(a);
    assert a[0] in b;
  }

  /** Whatever order the assignment rows come in, they read back as the requested list. */
  lemma {:induction false} GpusReadBack(gpus: seq<Id>, stored: seq<Assignment>)
    requires multiset(stored) == multiset(Enumerated(gpus))
    ensures Gpus(ByOrder(stored)) == gpus
  {
    hide ByOrder;
    SortedByOrder(stored);
    AscendingUnique(ByOrder(stored), Enumerated(gpus));
  }

  // ------------------------------------------------------------ comparison

  lemma {:induction false} ConfigDiffEmpty(keys: seq<string>, a: map<string, Value>, b: map<string, Value>)
    ensures ConfigDiff(keys, a, b) == [] <==> forall i :: 0 <= i < |keys| ==> Get(a, keys[i]) == Get(b, keys[i])
  {
    hide Get;
    if keys != [] {
      ConfigDiffEmpty(keys[..|keys| - 1], a, b);
    }
  }

  /** The list of differing fields is empty exactly when the specs are equal. */
  lemma DiffEmptyIff(a: Spec, b: Spec)
    requires a.cfg.Keys == b.cfg.Keys == set k | k in CRITICAL_KEYS
    ensures SpecDiff(a, b) == [] <==> a == b
  {
    ConfigDiffEmpty(CRITICAL_KEYS, a.cfg, b.cfg);
    hide ConfigDiff, CRITICAL_KEYS;
    if SpecDiff(a, b) == [] {
      assert ConfigDiff(CRITICAL_KEYS, a.cfg, b.cfg) == [];
      forall k | k in a.cfg ensures a.cfg[k] == b.cfg[k] {
        assert k in CRITICAL_KEYS;
        var i :| 0 <= i < |CRITICAL_KEYS| && CRITICAL_KEYS[i] == k;
        assert Get(a.cfg, CRITICAL_KEYS[i]) == Get(b.cfg, CRITICAL_KEYS[i]);
      }
      assert a.cfg == b.cfg;
    }
  }

  // ------------------------------------------------------------ round trip

  /** The spec a request asks for, once it passes the checks before the lookup. */
  function Wanted(q: Request): Spec
    requires q.cache.Some? && FullConfig(q, q.cache.value).Ok?
  {
    RequestedSpec(q, q.cache.value, FullConfig(q, q.cache.value).value)
  }

  /** The same row with its assignments in any storage order. */
  predicate SameStored(a: Row, b: Row) {
    b == a.(assignments := b.assignments) && multiset(b.assignments) == multiset(a.assignments)
  }

  /** What a creation stores. */
  lemma CreatedRow(rows: Table, newId: Id, q: Request, w: World)
    requires Create(rows, newId, q, w).reply == Ok(Created(newId))
    ensures q.cache.Some? && FullConfig(q, q.cache.value).Ok?
    ensures var c := q.cache.value;
            var cfg := FullConfig(q, c).value;
            && NormalizeTools(cfg).Ok? && 1 <= q.port && Get(cfg, "source_cache_id") == Text(c.id)
            && Create(rows, newId, q, w).rows
               == rows + [Row(newId, c.node, c.version, true, false, Some(Strip(q.container)), Some(q.port), NormalizeTools(cfg).value, Enumerated(q.gpus))]
  {
    hide NormalizeTools, FindIdempotent, Strip, ContainerTaken, CriticalConfig, Enumerated, ValidationError, TensorParallel, ServedName,
      WithDefaults;
  }

  lemma SameElsewhere(cfg: Config, out: Config, key: string)
    requires NormalizeTools(cfg) == Ok(out) && key != ENABLE && key != PARSER
    ensures Get(out, key) == Get(cfg, key)
  {
    ToolsNormalized(cfg);
    hide NormalizeTools;
  }

  lemma WantedIs(q: Request)
    requires q.cache.Some? && FullConfig(q, q.cache.value).Ok?
    ensures var c := q.cache.value;
            Wanted(q) == Spec(c.id, c.node, c.version, Strip(q.container), q.port, q.gpus, CriticalConfig(FullConfig(q, c).value))
  {
    hide FullConfig;
  }

  lemma CandidateByCache(r: Row, want: Spec)
    requires r.node == want.node && r.managed && !r.retired && Get(r.cfg, "source_cache_id") == Text(want.cache)
    ensures Candidate(r, want)
  {
  }

  lemma SpecOfRow(r: Row, cache: CacheId)
    requires Get(r.cfg, "source_cache_id") == Text(cache) && r.container.Some? && r.port.Some? && r.port.value != 0
    ensures ExistingSpec(r)
            == Spec(cache, r.node, r.version, r.container.value, r.port.value, Gpus(ByOrder(r.assignments)), CriticalConfig(r.cfg))
  {
    hide Get, CriticalConfig, Gpus, ByOrder, IntOf;
  }

  /** A deployment just created has the identity of the request, and the spec read back from
      its stored row, in any storage order, is the requested spec. */
  lemma StoredReadsBack(rows: Table, newId: Id, q: Request, w: World, stored: Row)
    requires Create(rows, newId, q, w).reply == Ok(Created(newId))
    requires |Create(rows, newId, q, w).rows| == |rows| + 1 && SameStored(Create(rows, newId, q, w).rows[|rows|], stored)
    ensures q.cache.Some? && FullConfig(q, q.cache.value).Ok?
    ensures Candidate(stored, Wanted(q)) && stored.id == newId && ExistingSpec(stored) == Wanted(q)
  {
    CreatedRow(rows, newId, q, w);
    hide Create, NormalizeTools, FullConfig, Strip, CriticalConfig, ByOrder, Enumerated, Gpus, ExistingSpec, CRITICAL_KEYS, ParserOf,
      Candidate, Get, Wanted;
    var c := q.cache.value;
    var cfg := FullConfig(q, c).value;
    CriticalSurvives(cfg);
    ToolsNormalized(cfg);
    SameElsewhere(cfg, stored.cfg, "source_cache_id");
    GpusReadBack(q.gpus, stored.assignments);
    SpecOfRow(stored, c.id);
    WantedIs(q);
    CandidateByCache(stored, Wanted(q));
  }

  lemma {:induction false} CandidatesAre(rows: Table, want: Spec)
    ensures forall r :: r in Candidates(rows, want) <==> r in rows && Candidate(r, want)
  {
    hide Candidate;
    if rows != [] {
      CandidatesAre(rows[..|rows| - 1], want);
      assert rows == rows[..|rows| - 1] + [rows[|rows| - 1]];
    }
  }

  /** The only row that a request of this spec is compared with. */
  predicate OnlyCandidate(rows: Table, want: Spec, r: Row) {
    r in rows && Candidate(r, want) && forall x :: x in rows && Candidate(x, want) ==> x == r
  }

  lemma ExistingKeys(r: Row)
    ensures ExistingSpec(r).cfg.Keys == set k | k in CRITICAL_KEYS
  {
  }

  /** An exact retry, in any later state of the table and of the world, finds the created
      deployment and changes nothing, as long as no conflicting deployment was created: no
      other live managed one on that node with the cache or the container name. */
  lemma ExactRetryReuses(rows: Table, newId: Id, q: Request, w: World, stored: Row, later: Table, newId2: Id, w2: World)
    requires Create(rows, newId, q, w).reply == Ok(Created(newId))
    requires |Create(rows, newId, q, w).rows| == |rows| + 1 && SameStored(Create(rows, newId, q, w).rows[|rows|], stored)
    requires q.cache.Some? && FullConfig(q, q.cache.value).Ok? && OnlyCandidate(later, Wanted(q), stored)
    ensures Create(later, newId2, q, w2) == Outcome(later, Ok(Reused(newId)))
  {
    hide *;
    StoredReadsBack(rows, newId, q, w, stored);
    OnlyCandidateFound(later, Wanted(q), stored);
    FoundIsReused(later, newId2, q, w2, stored);
  }

  lemma FoundIsReused(rows: Table, newId: Id, q: Request, w: World, r: Row)
    requires q.cache.Some? && FullConfig(q, q.cache.value).Ok? && FindIdempotent(rows, Wanted(q)) == Ok(Some(r))
    ensures Create(rows, newId, q, w) == Outcome(rows, Ok(Reused(r.id)))
  {
    hide FullConfig, FindIdempotent, StoreRow, RequestedSpec;
  }

  lemma OnlyCandidateFound(rows: Table, want: Spec, r: Row)
    requires OnlyCandidate(rows, want, r) && ExistingSpec(r) == want
    ensures FindIdempotent(rows, want) == Ok(Some(r)) && FirstCandidateIs(rows, want, r)
  {
    hide Candidate, ExistingSpec, SpecDiff, Candidates;
    CandidatesAre(rows, want);
    ExistingKeys(r);
    DiffEmptyIff(want, ExistingSpec(r));
    assert r in Candidates(rows, want);
    assert Candidates(rows, want)[0] in Candidates(rows, want);
  }

  /** Any number of creation requests, one after another. */
  function Later(rows: Table, nextId: Id, qs: seq<(Request, World)>): Table
    decreases |qs|
  {
    if qs == [] then rows else Later(Create(rows, nextId, qs[0].0, qs[0].1).rows, nextId + 1, qs[1..])
  }

  /** The row has the cache and the container name of the spec, and no other row has either. */
  predicate Holds(rows: Table, want: Spec, r: Row) {
    OnlyCandidate(rows, want, r) && Get(r.cfg, "source_cache_id") == Text(want.cache) && r.container == Some(want.container)
  }

  /** A creation for the same node and cache, or the same node and container name, meets the
      deployment that is there; so it never adds a second candidate. */
  lemma CreateKeepsHold(rows: Table, newId: Id, q: Request, w: World, want: Spec, r: Row)
    requires Holds(rows, want, r)
    ensures Holds(Create(rows, newId, q, w).rows, want, r)
  {
    hide FullConfig, Wanted, Candidates, ExistingSpec, SpecDiff, CRITICAL_KEYS, Create;
    if Create(rows, newId, q, w).rows != rows {
      CreatedOnlyOne(rows, newId, q, w);
      CreatedRow(rows, newId, q, w);
      var row := Create(rows, newId, q, w).rows[|rows|];
      StoredReadsBack(rows, newId, q, w, row);
      WantedIs(q);
      CandidatesAre(rows, Wanted(q));
      hide NormalizeTools;
      SameElsewhere(FullConfig(q, q.cache.value).value, row.cfg, "source_cache_id");
      assert !Candidate(r, Wanted(q));
      assert !Candidate(row, want);
    }
  }

  /** A request that changes the table has found no candidate and created a row. */
  lemma {:induction false} CreatedOnlyOne(rows: Table, newId: Id, q: Request, w: World)
    requires Create(rows, newId, q, w).rows != rows
    ensures Create(rows, newId, q, w).reply == Ok(Created(newId))
    ensures q.cache.Some? && FullConfig(q, q.cache.value).Ok? && Candidates(rows, Wanted(q)) == []
  {
    hide FullConfig, Candidates, ExistingSpec, SpecDiff, RequestedSpec, NormalizeTools, Strip, ContainerTaken, ValidationError;
  }

  lemma CreationHolds(rows: Table, newId: Id, q: Request, w: World)
    requires Create(rows, newId, q, w).reply == Ok(Created(newId))
    ensures q.cache.Some? && FullConfig(q, q.cache.value).Ok?
    ensures |Create(rows, newId, q, w).rows| == |rows| + 1
    ensures Holds(Create(rows, newId, q, w).rows, Wanted(q), Create(rows, newId, q, w).rows[|rows|])
  {
    hide FullConfig, Wanted, Candidates, ExistingSpec, SpecDiff, CRITICAL_KEYS, Create, NormalizeTools;
    CreatedRow(rows, newId, q, w);
    CreatedOnlyOne(rows, newId, q, w);
    var row := Create(rows, newId, q, w).rows[|rows|];
    StoredReadsBack(rows, newId, q, w, row);
    WantedIs(q);
    CandidatesAre(rows, Wanted(q));
    SameElsewhere(FullConfig(q, q.cache.value).value, row.cfg, "source_cache_id");
  }

  lemma {:induction false} LaterHolds(rows: Table, nextId: Id, qs: seq<(Request, World)>, want: Spec, r: Row)
    requires Holds(rows, want, r)
    ensures Holds(Later(rows, nextId, qs), want, r)
    decreases |qs|
  {
    hide Create, Holds;
    if qs != [] {
      CreateKeepsHold(rows, nextId, qs[0].0, qs[0].1, want, r);
      LaterHolds(Create(rows, nextId, qs[0].0, qs[0].1).rows, nextId + 1, qs[1..], want, r);
    }
  }

  /** Whatever creation requests come in between, an exact retry returns the deployment the
      first request created: none of them can add a conflicting one. */
  lemma {:induction false} RetryAfterAnyCreations(rows: Table, newId: Id, q: Request, w: World, qs: seq<(Request, World)>, nextId: Id, w2: World)
    requires Create(rows, newId, q, w).reply == Ok(Created(newId))
    ensures var later := Later(Create(rows, newId, q, w).rows, nextId, qs);
            Create(later, nextId, q, w2) == Outcome(later, Ok(Reused(newId)))
  {
    hide *;
    CreationHolds(rows, newId, q, w);
    var created := Create(rows, newId, q, w).rows;
    LaterHolds(created, nextId, qs, Wanted(q), created[|rows|]);
    HeldIsOnly(Later(created, nextId, qs), Wanted(q), created[|rows|]);
    SameStoredItself(created[|rows|]);
    ExactRetryReuses(rows, newId, q, w, created[|rows|], Later(created, nextId, qs), nextId, w2);
  }

  lemma HeldIsOnly(rows: Table, want: Spec, r: Row)
    requires Holds(rows, want, r)
    ensures OnlyCandidate(rows, want, r)
  {
  }

  lemma SameStoredItself(r: Row)
    ensures SameStored(r, r)
  {
  }

  predicate FirstCandidateIs(rows: Table, want: Spec, r: Row) {
    Candidates(rows, want) != [] && Candidates(rows, want)[0] == r
  }

  /** A row with the wanted spec is reused if and only if it is the first candidate listed. */
  lemma ReusedIffFirst(rows: Table, want: Spec, r: Row)
    requires ExistingSpec(r) == want
    ensures FindIdempotent(rows, want) == Ok(Some(r)) <==> FirstCandidateIs(rows, want, r)
  {
    hide ExistingSpec, SpecDiff, Candidates;
    ExistingKeys(r);
    DiffEmptyIff(want, ExistingSpec(r));
  }

  /** The query has no order. The deployment is reused in every order the rows may be listed
      in, if and only if it is the only candidate; otherwise some order makes the first
      candidate another one, and the retry does not find it. */
  lemma AlwaysReusedIff(rows: Table, want: Spec, r: Row)
    requires r in rows && Candidate(r, want) && ExistingSpec(r) == want
    ensures (forall listing: Table :: multiset(listing) == multiset(rows) ==> FindIdempotent(listing, want) == Ok(Some(r)))
              <==> OnlyCandidate(rows, want, r)
  {
    hide FindIdempotent, Candidate, ExistingSpec, Candidates;
    if OnlyCandidate(rows, want, r) {
      forall listing: Table | multiset(listing) == multiset(rows) ensures FindIdempotent(listing, want) == Ok(Some(r)) {
        SameElements(listing, rows);
        OnlyCandidateFound(listing, want, r);
      }
    } else {
      var x :| x in rows && Candidate(x, want) && x != r;
      var listing := ListedFirst(rows, x);
      ReusedIffFirst(listing, want, r);
      FirstCandidate(listing, want);
      assert FindIdempotent(listing, want) != Ok(Some(r));
    }
  }

  lemma ListedFirst(rows: Table, x: Row) returns (listing: Table)
    requires x in rows
    ensures multiset(listing) == multiset(rows) && listing != [] && listing[0] == x
  {
    var k :| 0 <= k < |rows| && rows[k] == x;
    listing := [x] + rows[..k] + rows[k + 1..];
    assert rows == rows[..k] + [x] + rows[k + 1..];
  }

  lemma SameElements(a: Table, b: Table)
    requires multiset(a) == multiset(b)
    ensures forall r :: r in a <==> r in b
  {
    forall r ensures r in a <==> r in b {
      assert r in a <==> r in multiset(a);
      assert r in b <==> r in multiset(b);
    }
  }

  lemma {:induction false} FirstCandidate(rows: Table, want: Spec)
    requires rows != [] && Candidate(rows[0], want)
    ensures Candidates(rows, want) != [] && Candidates(rows, want)[0] == rows[0]
    decreases |rows|
  {
    hide Candidate;
    if |rows| == 1 {
      assert rows[..0] == [];
      assert Candidates(rows, want) == [] + [rows[0]];
    } else {
      FirstCandidate(rows[..|rows| - 1], want);
    }
  }

  // ------------------------------------------------ omitted is not false

  /** Leaving the enable flag out and setting it to false are different requests, although
      both switch tool calling off: the second conflicts with a deployment of the first. */
  lemma OmittedIsNotFalse(cfg: Config)
    requires Get(cfg, ENABLE).Null?
    ensures CriticalConfig(cfg) != CriticalConfig(cfg[ENABLE := Flag(false)])
    ensures CriticalConfig(cfg) == CriticalConfig(cfg[ENABLE := Null])
  {
    assert ENABLE in CRITICAL_KEYS by {
      assert CRITICAL_KEYS[12] == ENABLE;
    }
    hide Strip, Lower, IntOf, FloatOf, Str;
    assert CriticalConfig(cfg)[ENABLE] == Null;
    assert CriticalConfig(cfg[ENABLE := Flag(false)])[ENABLE] == Flag(false);
    forall k | k in CRITICAL_KEYS ensures Get(cfg, k) == Get(cfg[ENABLE := Null], k) {}
  }

  // ------------------------------------------- which requests are the same

  predicate IntKey(k: string) {
    k == "tensor_parallel_size" || k == "max_model_len" || k == "max_num_seqs"
  }

  predicate TextKey(k: string) {
    k == "served_model_name" || k == "model_path" || k == "dtype" || k == "quantization" || k == "runner"
  }

  predicate NameKey(k: string) {
    k == "reasoning_parser" || k == "vllm_model_runner" || k == PARSER
  }

  const SHARE := "gpu_memory_utilization"

  /** The value is absent or of the type the key is meant for. */
  predicate Typed(k: string, v: Value) {
    || v.Null?
    || (IntKey(k) && v.Int?) || ((TextKey(k) || NameKey(k)) && v.Text?) || (k == SHARE && v.Float?) || (k == ENABLE && v.Flag?)
  }

  predicate Blank(v: Value) {
    v.Null? || (v.Text? && Strip(v.s) == "")
  }

  /** Two such values ask for the same: equal numbers and flags, texts equal once stripped,
      names equal up to the case of their letters, blank texts as good as none. */
  predicate Alike(k: string, v: Value, w: Value) {
    if TextKey(k) then (Blank(v) && Blank(w)) || (v.Text? && w.Text? && Strip(v.s) == Strip(w.s))
    else if NameKey(k) then (Blank(v) && Blank(w)) || (v.Text? && w.Text? && SameLetters(Strip(v.s), Strip(w.s)))
    else if k == SHARE then (v.Null? && w.Null?) || (v.Float? && w.Float? && v.x == w.x)
    else v == w
  }

  lemma IntValue(k: string, v: Value)
    requires IntKey(k) && Typed(k, v)
    ensures NormalizeValue(k, v) == v
  {
    hide Strip, Lower, FloatOf, Str, TextOrNull, ParseInt;
  }

  lemma TextValue(k: string, v: Value)
    requires TextKey(k) && Typed(k, v)
    ensures NormalizeValue(k, v) == if Blank(v) then Null else Text(Strip(v.s))
  {
    hide Strip, Lower, FloatOf, IntOf, ParseInt;
  }

  lemma NameValue(k: string, v: Value)
    requires NameKey(k) && Typed(k, v)
    ensures NormalizeValue(k, v) == if Blank(v) then Null else Text(Lower(Strip(v.s)))
  {
    hide Strip, FloatOf, IntOf, Str, ParseInt;
    if v.Text? {
      LowerMeans(Strip(v.s), "");
    }
  }

  lemma ShareValue(v: Value)
    requires Typed(SHARE, v)
    ensures NormalizeValue(SHARE, v) == if v.Null? then Null else Float(v.x, "")
  {
    hide Strip, Lower, IntOf, Str, TextOrNull, ParseInt;
  }

  lemma EnableValue(v: Value)
    ensures NormalizeValue(ENABLE, v) == v
  {
    hide Strip, Lower, IntOf, FloatOf, Str, TextOrNull;
  }

  /** The critical values of two configurations tell them apart exactly when they do not ask
      for the same. */
  lemma AlikeIff(k: string, v: Value, w: Value)
    requires Typed(k, v) && Typed(k, w)
    requires IntKey(k) || TextKey(k) || NameKey(k) || k == SHARE || k == ENABLE
    ensures NormalizeValue(k, v) == NormalizeValue(k, w) <==> Alike(k, v, w)
  {
    hide NormalizeValue, Strip;
    if IntKey(k) {
      IntValue(k, v);
      IntValue(k, w);
      NotOfOtherKind(k);
    } else if TextKey(k) {
      TextValue(k, v);
      TextValue(k, w);
    } else if NameKey(k) {
      NameValue(k, v);
      NameValue(k, w);
      NotOfOtherKind(k);
      if !Blank(v) && !Blank(w) {
        LowerMeans(Strip(v.s), Strip(w.s));
      }
    } else if k == SHARE {
      ShareValue(v);
      ShareValue(w);
      NotOfOtherKind(k);
    } else {
      EnableValue(v);
      EnableValue(w);
      NotOfOtherKind(k);
    }
  }

  lemma NotOfOtherKind(k: string)
    ensures IntKey(k) || NameKey(k) || k == SHARE || k == ENABLE ==> !TextKey(k)
    ensures IntKey(k) || k == SHARE || k == ENABLE ==> !NameKey(k)
    ensures IntKey(k) || k == ENABLE ==> k != SHARE
  {
  }

  /** A number written as a text is that number. */
  lemma NumeralReadsBack(n: int)
    ensures ParseInt(Str(Int(n))) == Some(n)
    ensures IntOf(Text(Str(Int(n)))) == IntOf(Int(n)) == Some(n)
  {
    var m: nat := if n < 0 then -n else n;
    NumeralDigits(m);
    NumeralValue(m);
    hide Numeral, Digits, Strip, Natural;
    if n < 0 { ParseNegative(Numeral(m)); } else { ParseDigits(Numeral(m)); }
  }

  lemma {:induction false} ParseDigits(t: string)
    requires Digits(t)
    ensures ParseInt(t) == Some(Natural(t))
  {
    Unstripped(t);
    hide Strip, Natural;
  }

  lemma {:induction false} ParseNegative(t: string)
    requires Digits(t)
    ensures ParseInt("-" + t) == Some(0 - Natural(t) as int)
  {
    hide Strip, Natural, ParseInt;
    var s := "-" + t;
    assert s[1..] == t;
    assert s[|s| - 1] == t[|t| - 1];
    assert !IsSpace(s[0]) && !IsSpace(s[|s| - 1]);
    hide Digits, IsSpace;
    Unstripped(s);
    ParseSigned(s);
  }

  lemma ParseSigned(s: string)
    requires Strip(s) == s && s != "" && s[0] == '-' && Digits(s[1..])
    ensures ParseInt(s) == Some(0 - Natural(s[1..]) as int)
  {
    hide Strip, Natural;
    assert !Digits(s);
    assert s[0] in "+-" by { assert "+-"[1] == '-'; }
  }

  lemma {:induction false} NumeralDigits(n: nat)
    ensures Digits(Numeral(n))
  {
    if n >= 10 {
      NumeralDigits(n / 10);
    }
  }

  lemma {:induction false} NumeralValue(n: nat)
    requires Digits(Numeral(n))
    ensures Natural(Numeral(n)) == n
  {
    if n < 10 {
      assert Numeral(n)[..0] == "";
    } else {
      NumeralDigits(n / 10);
      NumeralValue(n / 10);
      var t := Numeral(n);
      assert t[..|t| - 1] == Numeral(n / 10);
    }
  }

  /** What the memory share reads from other values than a float. */
  lemma ShareReads(v: Value, x: real)
    ensures v.Int? ==> (NormalizeValue(SHARE, v) == Float(x, "") <==> x == v.n as real)
    ensures v.Flag? ==> (NormalizeValue(SHARE, v) == Float(x, "") <==> x == if v.on then 1.0 else 0.0)
    ensures v.Text? && ParseInt(v.s).Some? ==> (NormalizeValue(SHARE, v) == Float(x, "") <==> x == ParseInt(v.s).value as real)
  {
    hide Strip, Lower, IntOf, Str, TextOrNull, ParseInt;
  }

  /** A text key strips the text of its value. */
  lemma TextKeyStrips(k: string, v: Value)
    requires TextKey(k) && !v.Null?
    ensures NormalizeValue(k, v) == TextOrNull(Strip(Str(v)))
  {
    hide Strip, Lower, IntOf, FloatOf, TextOrNull, Str;
  }

  /** What a text key reads from a number or a flag. */
  lemma TextReads(k: string, v: Value)
    requires TextKey(k)
    ensures v.Flag? ==> NormalizeValue(k, v) == TextOrNull(Strip(if v.on then "True" else "False"))
    ensures v.Int? ==> NormalizeValue(k, v) == TextOrNull(Strip(Str(v))) && ParseInt(Str(v)) == Some(v.n)
  {
    hide NormalizeValue, Strip, TextOrNull, ParseInt, Numeral;
    if v.Flag? {
      TextKeyStrips(k, v);
    } else if v.Int? {
      TextKeyStrips(k, v);
      NumeralReadsBack(v.n);
    }
  }

  /** White space around a number does not matter. */
  lemma ParseStripped(s: string)
    ensures ParseInt(s) == ParseInt(Strip(s))
  {
    StripTwice(s);
    hide Strip, Natural, Digits;
  }

  /** A text without white space at its ends is not changed by stripping. */
  lemma Unstripped(s: string)
    requires s != "" && !IsSpace(s[0]) && !IsSpace(s[|s| - 1])
    ensures Strip(s) == s
  {
  }

  /** The other values an integer key takes for a number: a flag is 1 or 0, a float is cut
      towards zero. */
  lemma IntReads(k: string, v: Value, n: int)
    requires IntKey(k)
    ensures v.Flag? ==> (NormalizeValue(k, v) == Int(n) <==> n == if v.on then 1 else 0)
    ensures v.Float? && v.x >= 0.0 ==> (NormalizeValue(k, v) == Int(n) <==> n as real <= v.x < n as real + 1.0)
    ensures v.Float? && v.x < 0.0 ==> (NormalizeValue(k, v) == Int(n) <==> n as real - 1.0 < v.x <= n as real)
    ensures v.Text? ==> (NormalizeValue(k, v) == Int(n) <==> ParseInt(v.s) == Some(n))
  {
    hide Strip, Lower, FloatOf, Str, TextOrNull, ParseInt;
  }

  /** The served model name a request ends up with: its own if it gives one, else the
      version's, stripped. */
  predicate ServedAs(q: Request, c: Cache, name: string) {
    if q.servedName.Some? && q.servedName.value != "" then name == Strip(q.servedName.value)
    else if c.servedName.Some? then name == Strip(c.servedName.value) else name == ""
  }

  /** The value of a key that the request may set and the service does not. */
  function Asked(q: Request, c: Cache, k: string): Value {
    if k == "runner" && "runner" !in q.runtimeConfig && c.modelType.Embedding? then Text("pooling") else Get(q.runtimeConfig, k)
  }

  const FREE_KEYS: seq<string> := [
    "dtype", "quantization", "runner", "max_model_len", "max_num_seqs", SHARE, "reasoning_parser", "vllm_model_runner", ENABLE, PARSER]

  predicate TypedRequest(q: Request, c: Cache) {
    forall i :: 0 <= i < |FREE_KEYS| ==> Typed(FREE_KEYS[i], Asked(q, c, FREE_KEYS[i]))
  }

  /** Two requests mean the same deployment. */
  predicate SameRequest(q: Request, c: Cache, r: Request, d: Cache) {
    && c.id == d.id && c.node == d.node && c.version == d.version && Strip(q.container) == Strip(r.container) && q.port == r.port
    && q.gpus == r.gpus && ServedName(q, c) == ServedName(r, d)
    && (c.localPath.Some? && d.localPath.Some? && Strip(c.localPath.value) == Strip(d.localPath.value))
    && forall i :: 0 <= i < |FREE_KEYS| ==> Alike(FREE_KEYS[i], Asked(q, c, FREE_KEYS[i]), Asked(r, d, FREE_KEYS[i]))
  }

  lemma ServedNameMeans(q: Request, c: Cache)
    ensures ServedAs(q, c, ServedName(q, c))
  {
  }

  /** What the complete configuration holds of the critical keys. */
  lemma CriticalValues(q: Request, c: Cache)
    requires FullConfig(q, c).Ok?
    ensures c.localPath.Some?
    ensures var cfg := FullConfig(q, c).value;
            && Get(cfg, "served_model_name") == Text(ServedName(q, c)) && Get(cfg, "model_path") == Text(c.localPath.value)
            && Get(cfg, "network_names") == List([Text("modelops-model")]) && Get(cfg, "tensor_parallel_size") == Int(|q.gpus|)
    ensures forall i :: 0 <= i < |FREE_KEYS| ==> Get(FullConfig(q, c).value, FREE_KEYS[i]) == Asked(q, c, FREE_KEYS[i])
  {
    hide TensorParallel, ServedName, Distinct;
    forall i | 0 <= i < |FREE_KEYS| ensures Get(FullConfig(q, c).value, FREE_KEYS[i]) == Asked(q, c, FREE_KEYS[i]) {
      FreeKeys(i);
      OtherKey(q, c, FREE_KEYS[i]);
    }
  }

  /** None of these keys is one the service sets. */
  predicate Unset(k: string) {
    && k != "served_model_name" && k != "model_path" && k != "network_names" && k != "tensor_parallel_size"
    && k != "source_cache_id" && k != "runtime_port" && k != "probe_type" && k != "health_path"
  }

  lemma FreeKeys(i: nat)
    requires i < |FREE_KEYS|
    ensures Unset(FREE_KEYS[i])
  {
  }

  lemma OtherKey(q: Request, c: Cache, k: string)
    requires FullConfig(q, c).Ok? && Unset(k)
    ensures Get(FullConfig(q, c).value, k) == Asked(q, c, k)
  {
    hide TensorParallel, ServedName, Distinct;
  }

  /** Equal specs are equal requests. */
  lemma SameSpecIff(q: Request, r: Request)
    requires q.cache.Some? && FullConfig(q, q.cache.value).Ok? && TypedRequest(q, q.cache.value)
    requires r.cache.Some? && FullConfig(r, r.cache.value).Ok? && TypedRequest(r, r.cache.value)
    ensures Wanted(q) == Wanted(r) <==> SameRequest(q, q.cache.value, r, r.cache.value)
  {
    var c, d := q.cache.value, r.cache.value;
    WantedIs(q);
    WantedIs(r);
    CriticalValues(q, c);
    CriticalValues(r, d);
    SameConfigIff(q, c, r, d);
    hide FullConfig, Wanted, CriticalConfig, FREE_KEYS, ServedName, Strip;
  }

  lemma SameConfigIff(q: Request, c: Cache, r: Request, d: Cache)
    requires FullConfig(q, c).Ok? && TypedRequest(q, c) && FullConfig(r, d).Ok? && TypedRequest(r, d)
    ensures c.localPath.Some? && d.localPath.Some?
    ensures CriticalConfig(FullConfig(q, c).value) == CriticalConfig(FullConfig(r, d).value) <==>
              && |q.gpus| == |r.gpus| && ServedName(q, c) == ServedName(r, d) && Strip(c.localPath.value) == Strip(d.localPath.value)
              && forall i :: 0 <= i < |FREE_KEYS| ==> Alike(FREE_KEYS[i], Asked(q, c, FREE_KEYS[i]), Asked(r, d, FREE_KEYS[i]))
  {
    CriticalValues(q, c);
    CriticalValues(r, d);
    var a, b := FullConfig(q, c).value, FullConfig(r, d).value;
    SameValuesIff(a, b);
    NamesStripped(q, c);
    NamesStripped(r, d);
    hide FullConfig, CriticalConfig, FREE_KEYS, ServedName, NormalizeValue, Strip;
    SetValues(a, b, ServedName(q, c), ServedName(r, d), c.localPath.value, d.localPath.value, |q.gpus|, |r.gpus|);
    forall i | 0 <= i < |FREE_KEYS|
      ensures NormalizeValue(FREE_KEYS[i], Get(a, FREE_KEYS[i])) == NormalizeValue(FREE_KEYS[i], Get(b, FREE_KEYS[i]))
              <==> Alike(FREE_KEYS[i], Asked(q, c, FREE_KEYS[i]), Asked(r, d, FREE_KEYS[i]))
    {
      FreeKinds(i);
      AlikeIff(FREE_KEYS[i], Asked(q, c, FREE_KEYS[i]), Asked(r, d, FREE_KEYS[i]));
    }
  }

  lemma NamesStripped(q: Request, c: Cache)
    requires FullConfig(q, c).Ok?
    ensures ServedName(q, c) != "" && Strip(ServedName(q, c)) == ServedName(q, c)
  {
    hide Strip, TensorParallel, WithDefaults, Distinct;
    NameStripped(q, c);
    hide ServedName;
  }

  lemma NameStripped(q: Request, c: Cache)
    ensures ServedName(q, c) != "" ==> Strip(ServedName(q, c)) == ServedName(q, c)
  {
    hide Strip;
    if q.servedName.Some? { StripTwice(q.servedName.value); }
    if c.servedName.Some? { StripTwice(c.servedName.value); }
  }

  lemma FreeKinds(i: nat)
    requires i < |FREE_KEYS|
    ensures var k := FREE_KEYS[i]; IntKey(k) || TextKey(k) || NameKey(k) || k == SHARE || k == ENABLE
  {
  }

  /** The values that the service sets. */
  lemma SetValues(a: Config, b: Config, name: string, other: string, path: string, elsewhere: string, n: nat, m: nat)
    requires Get(a, "served_model_name") == Text(name) && Get(b, "served_model_name") == Text(other)
    requires Get(a, "model_path") == Text(path) && Get(b, "model_path") == Text(elsewhere)
    requires Get(a, "tensor_parallel_size") == Int(n) && Get(b, "tensor_parallel_size") == Int(m)
    requires Strip(name) == name && Strip(other) == other
    ensures SameValue(a, b, "served_model_name") <==> name == other
    ensures SameValue(a, b, "model_path") <==> Strip(path) == Strip(elsewhere)
    ensures SameValue(a, b, "tensor_parallel_size") <==> n == m
  {
    hide NormalizeValue, Strip;
    AlikeIff("served_model_name", Text(name), Text(other));
    AlikeIff("model_path", Text(path), Text(elsewhere));
    AlikeIff("tensor_parallel_size", Int(n), Int(m));
    NotOfOtherKind("tensor_parallel_size");
  }

  predicate SameValue(a: Config, b: Config, k: string) {
    NormalizeValue(k, Get(a, k)) == NormalizeValue(k, Get(b, k))
  }

  /** The critical values agree when they do key by key. */
  lemma SameValuesIff(a: Config, b: Config)
    requires Get(a, "network_names") == Get(b, "network_names")
    ensures CriticalConfig(a) == CriticalConfig(b) <==>
              && SameValue(a, b, "served_model_name") && SameValue(a, b, "model_path") && SameValue(a, b, "tensor_parallel_size")
              && forall i :: 0 <= i < |FREE_KEYS| ==> SameValue(a, b, FREE_KEYS[i])
  {
    hide CRITICAL_KEYS, FREE_KEYS, CriticalConfig;
    AllKeys();
    SameKeyByKey(a, b);
    hide SameValue;
    assert SameValue(a, b, "network_names") by { OneValue(a, b, "network_names"); }
    if forall k :: k in CRITICAL_KEYS ==> SameValue(a, b, k) {
      forall i | 0 <= i < |FREE_KEYS| ensures SameValue(a, b, FREE_KEYS[i]) {
        assert FREE_KEYS[i] in FREE_KEYS;
      }
    }
  }

  lemma OneValue(a: Config, b: Config, k: string)
    requires Get(a, k) == Get(b, k)
    ensures SameValue(a, b, k)
  {
    hide NormalizeValue;
  }

  lemma SameKeyByKey(a: Config, b: Config)
    ensures CriticalConfig(a) == CriticalConfig(b) <==> forall k :: k in CRITICAL_KEYS ==> SameValue(a, b, k)
  {
    hide NormalizeValue, Get, CRITICAL_KEYS;
    if CriticalConfig(a) == CriticalConfig(b) {
      forall k | k in CRITICAL_KEYS ensures SameValue(a, b, k) {
        assert CriticalConfig(a)[k] == CriticalConfig(b)[k];
      }
    }
  }

  lemma AllKeys()
    ensures forall k :: k in CRITICAL_KEYS <==>
              k in FREE_KEYS || k in ["served_model_name", "model_path", "tensor_parallel_size", "network_names"]
  {
  }

  /** The deployment must be compared with the request: a live managed one on the node of the
      cache, made from that cache or with that container name. */
  predicate Meets(r: Row, q: Request, c: Cache) {
    && r.node == c.node && r.managed && !r.retired
    && (Get(r.cfg, "source_cache_id") == Text(c.id) || r.container == Some(Strip(q.container)))
  }

  /** The first of these is at position n. */
  predicate FirstMet(rows: Table, q: Request, c: Cache, n: nat) {
    n < |rows| && Meets(rows[n], q, c) && forall k :: 0 <= k < n ==> !Meets(rows[k], q, c)
  }

  /** A request that first meets the deployment stored for another request reuses it exactly
      when the two mean the same deployment. With any critical difference it is refused as
      conflicting with that deployment; nothing changes either way. */
  lemma ConflictIff(rows: Table, newId: Id, q: Request, w: World, later: Table, n: nat, r: Request, id: Id, v: World)
    requires Create(rows, newId, q, w).reply == Ok(Created(newId))
    requires r.cache.Some? && FullConfig(r, r.cache.value).Ok? && FirstMet(later, r, r.cache.value, n)
    requires |Create(rows, newId, q, w).rows| == |rows| + 1 && SameStored(Create(rows, newId, q, w).rows[|rows|], later[n])
    requires q.cache.Some? && TypedRequest(q, q.cache.value) && TypedRequest(r, r.cache.value)
    ensures Create(later, id, r, v) ==
              Outcome(later, if SameRequest(r, r.cache.value, q, q.cache.value) then Ok(Reused(newId)) else Err(SpecConflict(newId)))
  {
    hide Create, FullConfig, Wanted, SameRequest, TypedRequest, Meets, FindIdempotent, ExistingSpec, Candidate, CRITICAL_KEYS, SameStored,
      FirstCandidateIs;
    StoredReadsBack(rows, newId, q, w, later[n]);
    SameSpecIff(r, q);
    MetIsFirst(later, r, n);
    WantedKeys(r);
    FirstDecides(later, Wanted(r), later[n]);
    FoundDecides(later, id, r, v, later[n]);
  }

  lemma WantedKeys(q: Request)
    requires q.cache.Some? && FullConfig(q, q.cache.value).Ok?
    ensures Wanted(q).cfg.Keys == set k | k in CRITICAL_KEYS
  {
    hide FullConfig, NormalizeValue, CRITICAL_KEYS;
  }

  lemma MetIsFirst(rows: Table, q: Request, n: nat)
    requires q.cache.Some? && FullConfig(q, q.cache.value).Ok? && FirstMet(rows, q, q.cache.value, n)
    ensures FirstCandidateIs(rows, Wanted(q), rows[n])
  {
    WantedIs(q);
    hide FullConfig, Wanted;
    FirstOf(rows, Wanted(q), n);
  }

  lemma {:induction false} FirstOf(rows: Table, want: Spec, n: nat)
    requires n < |rows| && Candidate(rows[n], want) && forall k :: 0 <= k < n ==> !Candidate(rows[k], want)
    ensures FirstCandidateIs(rows, want, rows[n])
    decreases |rows|
  {
    hide Candidate;
    if n == |rows| - 1 {
      NoneBefore(rows[..n], want);
      assert Candidates(rows, want) == [] + [rows[n]];
    } else {
      FirstOf(rows[..|rows| - 1], want, n);
    }
  }

  lemma {:induction false} NoneBefore(rows: Table, want: Spec)
    requires forall k :: 0 <= k < |rows| ==> !Candidate(rows[k], want)
    ensures Candidates(rows, want) == []
  {
    hide Candidate;
    if rows != [] {
      NoneBefore(rows[..|rows| - 1], want);
    }
  }

  lemma FirstDecides(rows: Table, want: Spec, r: Row)
    requires FirstCandidateIs(rows, want, r) && want.cfg.Keys == set k | k in CRITICAL_KEYS
    ensures FindIdempotent(rows, want) == if ExistingSpec(r) == want then Ok(Some(r)) else Err(SpecConflict(r.id))
  {
    hide ExistingSpec, SpecDiff, Candidates, CRITICAL_KEYS;
    ExistingKeys(r);
    DiffEmptyIff(want, ExistingSpec(r));
  }

  lemma FoundDecides(rows: Table, newId: Id, q: Request, w: World, r: Row)
    requires q.cache.Some? && FullConfig(q, q.cache.value).Ok?
    requires FindIdempotent(rows, Wanted(q)) == Ok(Some(r)) || FindIdempotent(rows, Wanted(q)) == Err(SpecConflict(r.id))
    ensures Create(rows, newId, q, w) ==
              Outcome(rows, if FindIdempotent(rows, Wanted(q)).Ok? then Ok(Reused(r.id)) else Err(SpecConflict(r.id)))
  {
    hide FullConfig, FindIdempotent, StoreRow, RequestedSpec;
  }

  // ------------------------------------------------ what a creation stores

  /** The value that is requested, or else the default, or nothing. */
  predicate Defaults(cfg: Config, requested: Config, k: string, byDefault: Value) {
    if k in requested then k in cfg && cfg[k] == requested[k] else Get(cfg, k) == byDefault
  }

  /** The configuration that is looked up and stored: path, network, origin and port of the
      cache, the GPU count, the served name, a probe that fits the kind of the model, pooling
      for embeddings only, and whatever else was requested. */
  lemma FullConfigMeans(q: Request, c: Cache)
    requires FullConfig(q, c).Ok?
    ensures var cfg, asked := FullConfig(q, c).value, q.runtimeConfig;
            && c.localPath.Some? && Get(cfg, "model_path") == Text(c.localPath.value)
            && Get(cfg, "network_names") == List([Text("modelops-model")]) && Get(cfg, "source_cache_id") == Text(c.id)
            && Get(cfg, "runtime_port") == Int(q.port) && Get(cfg, "tensor_parallel_size") == Int(|q.gpus|)
            && (exists name :: ServedAs(q, c, name) && Get(cfg, "served_model_name") == Text(name))
            && Defaults(cfg, asked, "health_path", Text("/health"))
            && Defaults(cfg, asked, "runner", if c.modelType.Embedding? then Text("pooling") else Null)
            && Defaults(cfg, asked, "probe_type",
                        if c.modelType.Embedding? then Text("EMBEDDING") else if c.modelType.OtherType? then Null else Text("CHAT"))
    ensures forall k :: Unset(k) && k != "runner" ==> Get(FullConfig(q, c).value, k) == Get(q.runtimeConfig, k)
  {
    hide FullConfig, ServedName, ServedAs, Defaults;
    ServedNameMeans(q, c);
    CriticalValues(q, c);
    Origin(q, c);
    DefaultsInFull(q, c);
    forall k | Unset(k) && k != "runner" ensures Get(FullConfig(q, c).value, k) == Get(q.runtimeConfig, k) {
      OtherKey(q, c, k);
    }
  }

  lemma Origin(q: Request, c: Cache)
    requires FullConfig(q, c).Ok?
    ensures Get(FullConfig(q, c).value, "source_cache_id") == Text(c.id) && Get(FullConfig(q, c).value, "runtime_port") == Int(q.port)
  {
    hide TensorParallel, ServedName, Distinct, WithDefaults;
  }

  lemma DefaultsInFull(q: Request, c: Cache)
    requires FullConfig(q, c).Ok?
    ensures var cfg, asked := FullConfig(q, c).value, q.runtimeConfig;
            && Defaults(cfg, asked, "health_path", Text("/health"))
            && Defaults(cfg, asked, "runner", if c.modelType.Embedding? then Text("pooling") else Null)
            && Defaults(cfg, asked, "probe_type",
                        if c.modelType.Embedding? then Text("EMBEDDING") else if c.modelType.OtherType? then Null else Text("CHAT"))
  {
    hide Defaults, ServedName, TensorParallel, Distinct, WithDefaults;
    var set1 := q.runtimeConfig["tensor_parallel_size" := Int(|q.gpus|)]["served_model_name" := Text(ServedName(q, c))];
    DefaultsAre(set1, c.modelType);
    DefaultElsewhere(q, c, set1, "health_path", Text("/health"));
    DefaultElsewhere(q, c, set1, "runner", if c.modelType.Embedding? then Text("pooling") else Null);
    DefaultElsewhere(q, c, set1, "probe_type",
                     if c.modelType.Embedding? then Text("EMBEDDING") else if c.modelType.OtherType? then Null else Text("CHAT"));
  }

  lemma DefaultsAre(cfg: Config, t: ModelType)
    ensures var out := WithDefaults(cfg, t);
            && Defaults(out, cfg, "health_path", Text("/health"))
            && Defaults(out, cfg, "runner", if t.Embedding? then Text("pooling") else Null)
            && Defaults(out, cfg, "probe_type", if t.Embedding? then Text("EMBEDDING") else if t.OtherType? then Null else Text("CHAT"))
  {
  }

  lemma DefaultElsewhere(q: Request, c: Cache, set1: Config, k: string, v: Value)
    requires FullConfig(q, c).Ok? && (k == "health_path" || k == "runner" || k == "probe_type")
    requires set1 == q.runtimeConfig["tensor_parallel_size" := Int(|q.gpus|)]["served_model_name" := Text(ServedName(q, c))]
    requires Defaults(WithDefaults(set1, c.modelType), set1, k, v)
    ensures Defaults(FullConfig(q, c).value, q.runtimeConfig, k, v)
  {
    hide ServedName, TensorParallel, Distinct, WithDefaults;
  }

  /** Exactly when a request gets past the checks before the lookup: the cache is ready and on
      disk, the GPUs differ, their number is the requested tensor parallel size if one is
      requested, and there is a name to serve under. */
  lemma FullConfigIff(q: Request, c: Cache)
    ensures FullConfig(q, c).Ok? <==>
              && c.ready && c.localPath.Some? && c.localPath.value != ""
              && (forall i, j :: 0 <= i < j < |q.gpus| ==> q.gpus[i] != q.gpus[j])
              && TensorFits(q) && !ServedAs(q, c, "")
    ensures FullConfig(q, c).Err? ==> FullConfig(q, c).error == Invalid || FullConfig(q, c).error == Unhandled
    ensures FullConfig(q, c) == Err(Unhandled) <==>
              && c.ready && c.localPath.Some? && c.localPath.value != ""
              && (forall i, j :: 0 <= i < j < |q.gpus| ==> q.gpus[i] != q.gpus[j])
              && var v := Get(q.runtimeConfig, "tensor_parallel_size"); !Empty(v) && forall n :: !Reads(v, n)
  {
    ServedNameMeans(q, c);
    TensorFitsIff(q);
    hide WithDefaults, TensorFits, TensorParallel, Empty, Reads, Strip;
  }

  /** The value counts as not given: absent, false, zero, or empty. */
  predicate Empty(v: Value) {
    v == Null || v == Flag(false) || v == Int(0) || v == Text("") || v == List([]) || v == Object("{}") || (v.Float? && v.x == 0.0)
  }

  /** The value is a number, and this one. */
  predicate Reads(v: Value, n: int) {
    match v
    case Int(m) => m == n
    case Flag(on) => n == if on then 1 else 0
    case Float(x, _) => if x >= 0.0 then n as real <= x < n as real + 1.0 else n as real - 1.0 < x <= n as real
    case Text(s) => ParseInt(s) == Some(n)
    case _ => false
  }

  predicate TensorFits(q: Request) {
    var v := Get(q.runtimeConfig, "tensor_parallel_size");
    if Empty(v) then |q.gpus| >= 1 else Reads(v, |q.gpus|)
  }

  lemma TensorFitsIff(q: Request)
    ensures TensorFits(q) <==> TensorParallel(q) == Some(|q.gpus|)
    ensures TensorParallel(q).None? <==>
              var v := Get(q.runtimeConfig, "tensor_parallel_size"); !Empty(v) && forall n :: !Reads(v, n)
  {
    hide ParseInt, Get;
    var v := Get(q.runtimeConfig, "tensor_parallel_size");
    if IntOf(v).Some? {
      assert Reads(v, IntOf(v).value);
    }
  }

  /** A request that meets no deployment is served exactly when the fit allows it, the name,
      version and node are admitted, container and port can be used, the tool calling fields
      agree, and every GPU is known and of the node; it then adds its one row. */
  lemma CreatedIff(rows: Table, newId: Id, q: Request, w: World)
    requires q.cache.Some? && FullConfig(q, q.cache.value).Ok?
    requires forall k :: 0 <= k < |rows| ==> !Meets(rows[k], q, q.cache.value)
    ensures Create(rows, newId, q, w).reply.Ok? <==>
              && (w.fit.FitOk? || (w.fit.FitUnknown? && q.acknowledgeUnknown)) && w.admitted
              && Strip(q.container) != "" && 1 <= q.port <= 65535
              && (forall k :: 0 <= k < |rows| && !rows[k].retired ==> rows[k].container != Some(Strip(q.container)))
              && NormalizeTools(FullConfig(q, q.cache.value).value).Ok?
              && (forall i :: 0 <= i < |q.gpus| ==> q.gpus[i] in w.knownGpus && q.gpus[i] in w.nodeGpus)
    ensures Create(rows, newId, q, w).reply.Ok? ==>
              Create(rows, newId, q, w).reply == Ok(Created(newId)) && |Create(rows, newId, q, w).rows| == |rows| + 1
              && Create(rows, newId, q, w).rows[..|rows|] == rows
              && StoredFor(Create(rows, newId, q, w).rows[|rows|], newId, q, q.cache.value)
    ensures Create(rows, newId, q, w).reply.Err? ==> Create(rows, newId, q, w).rows == rows
    ensures w.fit.FitInsufficient? || (w.fit.FitUnknown? && !q.acknowledgeUnknown) ==> Create(rows, newId, q, w).reply == Err(Invalid)
    ensures Strip(q.container) == "" || !w.admitted || q.port < 1 || q.port > 65535 ==> Create(rows, newId, q, w).reply == Err(Invalid)
  {
    hide FullConfig, NormalizeTools, ValidationError, Enumerated, Strip, RequestedSpec, Meets, FindIdempotent;
    MissedAll(rows, q);
    GpusValidIff(q.gpus, w);
    DistinctGpus(q, q.cache.value);
    StoreRowMeans(rows, newId, q, q.cache.value, FullConfig(q, q.cache.value).value, w);
    hide StoreRow;
  }

  lemma StoreRowMeans(rows: Table, newId: Id, q: Request, c: Cache, cfg: Config, w: World)
    ensures var o := StoreRow(rows, newId, q, c, cfg, w);
            && (o.reply.Ok? <==>
                  && w.admitted && Strip(q.container) != "" && 1 <= q.port <= 65535
                  && (forall k :: 0 <= k < |rows| && !rows[k].retired ==> rows[k].container != Some(Strip(q.container)))
                  && NormalizeTools(cfg).Ok? && ValidationError(Enumerated(q.gpus), w).None?)
            && (o.reply.Ok? ==> o.reply == Ok(Created(newId)) && |o.rows| == |rows| + 1 && o.rows[..|rows|] == rows
                                && RowFor(o.rows[|rows|], newId, q, c) && NormalizeTools(cfg) == Ok(o.rows[|rows|].cfg))
            && (o.reply.Err? ==> o.rows == rows)
            && (Strip(q.container) == "" || !w.admitted || q.port < 1 || q.port > 65535 ==> o.reply == Err(Invalid))
  {
    hide NormalizeTools, ValidationError, Enumerated, Strip;
  }

  /** Without a cache nothing is looked up or created. */
  lemma NoCache(rows: Table, newId: Id, q: Request, w: World)
    requires q.cache.None?
    ensures Create(rows, newId, q, w) == Outcome(rows, Err(NotFound))
  {
  }

  /** The row is that of the request: live, managed, on the node and of the version of the
      cache, with its container, port and GPUs in order. */
  predicate StoredFor(r: Row, id: Id, q: Request, c: Cache) {
    RowFor(r, id, q, c) && FullConfig(q, c).Ok? && NormalizeTools(FullConfig(q, c).value) == Ok(r.cfg)
  }

  predicate RowFor(r: Row, id: Id, q: Request, c: Cache) {
    && r.id == id && r.node == c.node && r.version == c.version && r.managed && !r.retired
    && r.container == Some(Strip(q.container)) && r.port == Some(q.port)
    && |r.assignments| == |q.gpus| && forall i :: 0 <= i < |q.gpus| ==> r.assignments[i] == Assignment(q.gpus[i], i)
  }

  lemma MissedAll(rows: Table, q: Request)
    requires q.cache.Some? && FullConfig(q, q.cache.value).Ok?
    requires forall k :: 0 <= k < |rows| ==> !Meets(rows[k], q, q.cache.value)
    ensures FindIdempotent(rows, RequestedSpec(q, q.cache.value, FullConfig(q, q.cache.value).value)) == Ok(None)
  {
    WantedIs(q);
    hide FullConfig;
    NoneBefore(rows, Wanted(q));
    hide Wanted;
  }

  lemma DistinctGpus(q: Request, c: Cache)
    requires FullConfig(q, c).Ok?
    ensures Distinct(q.gpus)
  {
  }

  /** The assignments of different GPUs are in order exactly when the GPUs are known and of the
      node. */
  lemma GpusValidIff(gpus: seq<Id>, w: World)
    ensures Distinct(gpus) ==>
              (ValidationError(Enumerated(gpus), w).None? <==>
                 forall i :: 0 <= i < |gpus| ==> gpus[i] in w.knownGpus && gpus[i] in w.nodeGpus)
  {
    if Distinct(gpus) {
      FirstErrorIff(Enumerated(gpus), |gpus|, w);
      forall i | 0 <= i < |gpus|
        ensures AssignmentError(Enumerated(gpus), i, w).None? <==> gpus[i] in w.knownGpus && gpus[i] in w.nodeGpus
      {
      }
    }
  }

  lemma {:induction false} FirstErrorIff(a: seq<Assignment>, n: nat, w: World)
    requires n <= |a|
    ensures FirstError(a, n, w).None? <==> forall i :: 0 <= i < n ==> AssignmentError(a, i, w).None?
  {
    hide AssignmentError;
    if n > 0 {
      FirstErrorIff(a, n - 1, w);
    }
  }

  /** Assignments are accepted exactly when no order is negative, neither GPUs nor orders occur
      twice, and every GPU is known and of the node. */
  lemma AssignmentsValidIff(a: seq<Assignment>, w: World)
    ensures ValidationError(a, w).None? <==>
              && (forall i :: 0 <= i < |a| ==> a[i].order >= 0 && a[i].gpu in w.knownGpus && a[i].gpu in w.nodeGpus)
              && (forall i, j :: 0 <= i < j < |a| ==> a[i].gpu != a[j].gpu && a[i].order != a[j].order)
  {
    FirstErrorIff(a, |a|, w);
    forall i | 0 <= i < |a|
      ensures AssignmentError(a, i, w).None? <==>
                && a[i].order >= 0 && a[i].gpu in w.knownGpus && a[i].gpu in w.nodeGpus
                && forall j :: 0 <= j < i ==> a[j].gpu != a[i].gpu && a[j].order != a[i].order
    {
    }
    hide AssignmentError;
  }

  /** What the first bad entry is refused for. */
  lemma AssignmentErrorMeans(a: seq<Assignment>, i: nat, w: World)
    requires i < |a|
    ensures var twice := exists j :: 0 <= j < i && (a[j].gpu == a[i].gpu || a[j].order == a[i].order);
            && (AssignmentError(a, i, w) == Some(Conflict) <==> a[i].order >= 0 && twice)
            && (AssignmentError(a, i, w) == Some(NotFound) <==> a[i].order >= 0 && !twice && a[i].gpu !in w.knownGpus)
            && (AssignmentError(a, i, w) == Some(Invalid) <==>
                  a[i].order < 0 || (!twice && a[i].gpu in w.knownGpus && a[i].gpu !in w.nodeGpus))
  {
  }

  // --------------------------------------------- deployments made otherwise

  /** A deployment that was not made from a cache is never taken for one that was: a request
      that first meets it, by its container name, conflicts with it. */
  lemma ForeignConflicts(rows: Table, newId: Id, q: Request, w: World, n: nat)
    requires q.cache.Some? && FullConfig(q, q.cache.value).Ok? && FirstMet(rows, q, q.cache.value, n)
    requires Get(rows[n].cfg, "source_cache_id").Null? && q.cache.value.id != "00000000-0000-0000-0000-000000000000"
    ensures Create(rows, newId, q, w) == Outcome(rows, Err(SpecConflict(rows[n].id)))
  {
    hide FullConfig, Wanted, Meets, FindIdempotent, Candidate, CRITICAL_KEYS, FirstCandidateIs, Create, Gpus, ByOrder, CriticalConfig;
    MetIsFirst(rows, q, n);
    WantedIs(q);
    WantedKeys(q);
    FirstDecides(rows, Wanted(q), rows[n]);
    assert ExistingSpec(rows[n]).cache == "00000000-0000-0000-0000-000000000000";
    hide ExistingSpec;
    FoundDecides(rows, newId, q, w, rows[n]);
  }

  /** The port a deployment is compared by: its own, or else the one in its configuration, or
      none. */
  lemma ComparedPort(r: Row)
    ensures var p, kept := ExistingSpec(r).port, Get(r.cfg, "runtime_port");
            if r.port.Some? && r.port.value != 0 then p == r.port.value
            else (kept.Int? ==> p == kept.n) && (Empty(kept) ==> p == 0)
    ensures r.container.None? ==> ExistingSpec(r).container == ""
  {
    hide Gpus, ByOrder, CriticalConfig, Str, ParseInt, Get;
  }
}
