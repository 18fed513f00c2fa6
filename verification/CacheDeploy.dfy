/** Creating a deployment from a prepared model cache, and recognising a request that was
    already served. Sources: `services/cache_deploy.py`, `services/deployments.py` and
    `services/vllm_auto_tool_calling.py`. */
module CacheDeploy {
  import opened Prelude

  type Id = nat
  type CacheId = s: string | s != "" witness "c"

  // -------------------------------------------------------------- configuration

  /** A JSON value. A float carries the text `str` gives it; `Object` is a dictionary. */
  datatype Value = Null | Flag(on: bool) | Int(n: int) | Float(x: real, text: string) | Text(s: string) | List(items: seq<Value>) | Object(repr: string)

  type Config = map<string, Value>

  const ENABLE := "enable_auto_tool_choice"
  const PARSER := "tool_call_parser"

  const CRITICAL_KEYS: seq<string> := [
    "served_model_name", "model_path", "network_names", "tensor_parallel_size", "dtype", "quantization", "runner",
    "max_model_len", "max_num_seqs", "gpu_memory_utilization", "reasoning_parser", "vllm_model_runner", ENABLE, PARSER]

  function Get(cfg: Config, key: string): Value {
    if key in cfg then cfg[key] else Null
  }

  /** `setdefault`. */
  function SetDefault(cfg: Config, key: string, v: Value): Config {
    if key in cfg then cfg else cfg[key := v]
  }

  predicate Digits(s: string) {
    s != "" && forall i :: 0 <= i < |s| ==> '0' <= s[i] <= '9'
  }

  function Natural(s: string): nat
    requires forall i :: 0 <= i < |s| ==> '0' <= s[i] <= '9'
  {
    if s == "" then 0 else Natural(s[..|s| - 1]) * 10 + (s[|s| - 1] as int - '0' as int)
  }

  /** `int` of a text: an optional sign and decimal digits, with white space around. */
  function ParseInt(s: string): Option<int> {
    var t := Strip(s);
    if Digits(t) then Some(Natural(t))
    else if t != "" && t[0] in "+-" && Digits(t[1..]) then
      var n: int := Natural(t[1..]);
      Some(if t[0] == '-' then -n else n)
    else None
  }

  /** `int` of a value; `None` where it raises. */
  function IntOf(v: Value): Option<int> {
    match v
    case Int(n) => Some(n)
    case Flag(on) => Some(if on then 1 else 0)
    case Float(x, _) => Some(if x >= 0.0 then x.Floor else -(-x).Floor)
    case Text(s) => ParseInt(s)
    case _ => None
  }

  /** `float` of a value, for texts that are whole numbers. */
  function FloatOf(v: Value): Option<real> {
    match v
    case Int(n) => Some(n as real)
    case Flag(on) => Some(if on then 1.0 else 0.0)
    case Float(x, _) => Some(x)
    case Text(s) => if ParseInt(s).Some? then Some(ParseInt(s).value as real) else None
    case _ => None
  }

  function Digit(n: nat): string
    requires n < 10
  {
    [['0', '1', '2', '3', '4', '5', '6', '7', '8', '9'][n]]
  }

  function Numeral(n: nat): string {
    if n < 10 then Digit(n) else Numeral(n / 10) + Digit(n % 10)
  }

  /** `str` of a value, for lists without their elements. */
  function Str(v: Value): string {
    match v
    case Null => "None"
    case Flag(on) => if on then "True" else "False"
    case Int(n) => if n < 0 then "-" + Numeral(-n) else Numeral(n)
    case Float(_, text) => text
    case Text(s) => s
    case List(_) => "[...]"
    case Object(repr) => repr
  }

  function TextOrNull(s: string): Value {
    if s == "" then Null else Text(s)
  }

  /** `_normalize_cfg_value`. Null is returned at once, so the default of `false` for the
      enable flag further down in the source is never reached. */
  function NormalizeValue(key: string, v: Value): Value {
    if v.Null? then Null
    else if key == "network_names" then
      if v.List? then List(seq(|v.items|, i requires 0 <= i < |v.items| => Text(Str(v.items[i])))) else v
    else if key in {"tensor_parallel_size", "max_model_len", "max_num_seqs"} then
      if IntOf(v).Some? then Int(IntOf(v).value) else v
    else if key == "gpu_memory_utilization" then
      if FloatOf(v).Some? then Float(FloatOf(v).value, "") else v
    else if key in {"served_model_name", "model_path", "dtype", "quantization", "runner"} then TextOrNull(Strip(Str(v)))
    else if key in {"reasoning_parser", "vllm_model_runner", PARSER} then
      if v.Text? then TextOrNull(Lower(Strip(v.s))) else v
    else v
  }

  datatype Error = NotFound | Invalid | SpecConflict(deployment: Id) | Conflict | Unhandled

  /** The tool call parser of a configuration: none, `hermes`, or refused. */
  function ParserOf(v: Value): Result<Option<string>, Error> {
    match v
    case Null => Ok(None)
    case Text(s) =>
      var t := Lower(Strip(s));
      if t == "" then Ok(None) else if t == "hermes" then Ok(Some(t)) else Err(Invalid)
    case _ => Err(Invalid)
  }

  /** `normalize_auto_tool_calling_config`. */
  function NormalizeTools(cfg: Config): Result<Config, Error> {
    var e, parser := Get(cfg, ENABLE), ParserOf(Get(cfg, PARSER));
    if !e.Null? && !e.Flag? then Err(Invalid)
    else if parser.Err? then Err(parser.error)
    else if (e == Flag(true)) != parser.value.Some? then Err(Invalid)
    else
      var rest := cfg - {ENABLE, PARSER};
      var flagged := if e.Flag? then rest[ENABLE := e] else rest;
      Ok(if parser.value.Some? then flagged[PARSER := Text(parser.value.value)] else flagged)
  }

  // ----------------------------------------------------------------- the table

  datatype Assignment = Assignment(gpu: Id, order: int)

  /** `assignments` is in storage order, which means nothing. */
  datatype Row = Row(id: Id, node: Id, version: Id, managed: bool, retired: bool, container: Option<string>, port: Option<int>,
                     cfg: Config, assignments: seq<Assignment>)

  /** The deployment rows, in the order a query happens to list them. */
  type Table = seq<Row>

  function InsertByOrder(x: Assignment, s: seq<Assignment>): seq<Assignment> {
    if s == [] then [x] else if s[0].order < x.order then [s[0]] + InsertByOrder(x, s[1..]) else [x] + s
  }

  /** `order_by(device_order)`. */
  function ByOrder(s: seq<Assignment>): seq<Assignment> {
    if s == [] then [] else InsertByOrder(s[0], ByOrder(s[1..]))
  }

  function Gpus(s: seq<Assignment>): (r: seq<Id>)
    ensures |r| == |s| && forall i :: 0 <= i < |s| ==> r[i] == s[i].gpu
  {
    seq(|s|, i requires 0 <= i < |s| => s[i].gpu)
  }

  /** The assignments a request asks for: in the order of its list. */
  function Enumerated(gpus: seq<Id>): (r: seq<Assignment>)
    ensures |r| == |gpus| && forall i :: 0 <= i < |gpus| ==> r[i] == Assignment(gpus[i], i)
  {
    seq(|gpus|, i requires 0 <= i < |gpus| => Assignment(gpus[i], i))
  }

  // ---------------------------------------------------------------------- specs

  /** What must agree for two requests to mean the same deployment. */
  datatype Spec = Spec(cache: string, node: Id, version: Id, container: string, port: int, gpus: seq<Id>, cfg: map<string, Value>)

  function CriticalConfig(cfg: Config): map<string, Value> {
    map k | k in CRITICAL_KEYS :: NormalizeValue(k, Get(cfg, k))
  }

  const NO_CACHE := "00000000-0000-0000-0000-000000000000"

  predicate Truthy(v: Value) {
    match v
    case Null => false
    case Flag(on) => on
    case Int(n) => n != 0
    case Float(x, _) => x != 0.0
    case Text(s) => s != ""
    case List(items) => items != []
    case Object(repr) => repr != "{}"
  }

  /** `_existing_create_critical_spec`. */
  function ExistingSpec(r: Row): Spec {
    var cache := Get(r.cfg, "source_cache_id");
    var port := Get(r.cfg, "runtime_port");
    Spec(if Truthy(cache) then Str(cache) else NO_CACHE, r.node, r.version, if r.container.Some? then r.container.value else "",
         if r.port.Some? && r.port.value != 0 then r.port.value else if Truthy(port) && IntOf(port).Some? then IntOf(port).value else 0,
         Gpus(ByOrder(r.assignments)), CriticalConfig(r.cfg))
  }

  /** The configuration keys, of those listed, that differ: part of `_spec_diff`. */
  function ConfigDiff(keys: seq<string>, a: map<string, Value>, b: map<string, Value>): seq<string> {
    if keys == [] then []
    else ConfigDiff(keys[..|keys| - 1], a, b) + if Get(a, keys[|keys| - 1]) != Get(b, keys[|keys| - 1]) then [keys[|keys| - 1]] else []
  }

  function Differs(name: string, differs: bool): seq<string> {
    if differs then [name] else []
  }

  /** `_spec_diff`. */
  function SpecDiff(a: Spec, b: Spec): seq<string> {
    Differs("source_cache_id", a.cache != b.cache) + Differs("node_id", a.node != b.node) + Differs("model_version_id", a.version != b.version)
    + Differs("container_name", a.container != b.container) + Differs("runtime_port", a.port != b.port)
    + Differs("gpu_device_ids", a.gpus != b.gpus) + ConfigDiff(CRITICAL_KEYS, a.cfg, b.cfg)
  }

  /** A deployment that a request for this cache and container must be compared with. */
  predicate Candidate(r: Row, want: Spec) {
    r.node == want.node && r.managed && !r.retired
    && (Get(r.cfg, "source_cache_id") == Text(want.cache) || r.container == Some(want.container))
  }

  function Candidates(rows: Table, want: Spec): seq<Row> {
    if rows == [] then [] else Candidates(rows[..|rows| - 1], want) + if Candidate(rows[|rows| - 1], want) then [rows[|rows| - 1]] else []
  }

  /** `_find_idempotent_deployment`: the first candidate decides. */
  function FindIdempotent(rows: Table, want: Spec): Result<Option<Row>, Error> {
    var cs := Candidates(rows, want);
    if cs == [] then Ok(None)
    else if SpecDiff(want, ExistingSpec(cs[0])) == [] then Ok(Some(cs[0]))
    else Err(SpecConflict(cs[0].id))
  }

  // ----------------------------------------------------------------- requests

  datatype ModelType = Llm | Vlm | Embedding | OtherType

  /** The cache row with what its foreign keys lead to. */
  datatype Cache = Cache(id: CacheId, ready: bool, localPath: Option<string>, node: Id, version: Id, servedName: Option<string>, modelType: ModelType)

  datatype Request = Request(cache: Option<Cache>, container: string, gpus: seq<Id>, port: int, servedName: Option<string>,
                             runtimeConfig: Config, acknowledgeUnknown: bool)

  datatype Fit = FitOk | FitUnknown | FitInsufficient

  /** What the rest of the world says to one request: the fresh resource fit, whether the
      name is free and the version and node accept deployments, which GPUs exist, and which of
      them the node has. */
  datatype World = World(fit: Fit, admitted: bool, knownGpus: set<Id>, nodeGpus: set<Id>)

  predicate Distinct(s: seq<Id>) {
    forall i, j :: 0 <= i < j < |s| ==> s[i] != s[j]
  }

  function AtLeastOne(n: int): int {
    if n < 1 then 1 else n
  }

  function WithDefaults(cfg: Config, t: ModelType): Config {
    var typed := match t
      case Embedding => SetDefault(SetDefault(cfg, "runner", Text("pooling")), "probe_type", Text("EMBEDDING"))
      case Llm => SetDefault(cfg, "probe_type", Text("CHAT"))
      case Vlm => SetDefault(cfg, "probe_type", Text("CHAT"))
      case OtherType => cfg;
    SetDefault(typed, "health_path", Text("/health"))
  }

  /** The served model name of a request: its own or the version's, stripped. */
  function ServedName(q: Request, c: Cache): string {
    if q.servedName.Some? && q.servedName.value != "" then Strip(q.servedName.value)
    else if c.servedName.Some? then Strip(c.servedName.value) else ""
  }

  function TensorParallel(q: Request): Option<int> {
    var v := Get(q.runtimeConfig, "tensor_parallel_size");
    if Truthy(v) then IntOf(v) else Some(AtLeastOne(|q.gpus|))
  }

  /** The complete configuration of a request that passes the checks before the lookup. */
  function FullConfig(q: Request, c: Cache): Result<Config, Error> {
    if !c.ready || c.localPath == None || c.localPath == Some("") then Err(Invalid)
    else if !Distinct(q.gpus) then Err(Invalid)
    else if TensorParallel(q) == None then Err(Unhandled)
    else if TensorParallel(q) != Some(|q.gpus|) then Err(Invalid)
    else if ServedName(q, c) == "" then Err(Invalid)
    else
      var cfg := q.runtimeConfig["tensor_parallel_size" := Int(|q.gpus|)]["served_model_name" := Text(ServedName(q, c))];
      Ok(WithDefaults(cfg, c.modelType)["model_path" := Text(c.localPath.value)]["network_names" := List([Text("modelops-model")])]
           ["source_cache_id" := Text(c.id)]["runtime_port" := Int(q.port)])
  }

  function RequestedSpec(q: Request, c: Cache, cfg: Config): Spec {
    Spec(c.id, c.node, c.version, Strip(q.container), q.port, q.gpus, CriticalConfig(cfg))
  }

  predicate ContainerTaken(rows: Table, container: string) {
    exists i :: 0 <= i < |rows| && !rows[i].retired && rows[i].container == Some(container)
  }

  datatype Reply = Reused(id: Id) | Created(id: Id)

  datatype Outcome = Outcome(rows: Table, reply: Result<Reply, Error>)

  /** What is wrong with the assignment at i, given those before it. */
  function AssignmentError(a: seq<Assignment>, i: nat, w: World): Option<Error>
    requires i < |a|
  {
    if a[i].order < 0 then Some(Invalid)
    else if exists j :: 0 <= j < i && a[j].gpu == a[i].gpu then Some(Conflict)
    else if exists j :: 0 <= j < i && a[j].order == a[i].order then Some(Conflict)
    else if a[i].gpu !in w.knownGpus then Some(NotFound)
    else if a[i].gpu !in w.nodeGpus then Some(Invalid)
    else None
  }

  function FirstError(a: seq<Assignment>, n: nat, w: World): Option<Error>
    requires n <= |a|
  {
    if n == 0 then None
    else if FirstError(a, n - 1, w).Some? then FirstError(a, n - 1, w)
    else AssignmentError(a, n - 1, w)
  }

  function ValidationError(a: seq<Assignment>, w: World): Option<Error> {
    FirstError(a, |a|, w)
  }

  /** `create_managed` with the assignments of the request. */
  function StoreRow(rows: Table, newId: Id, q: Request, c: Cache, cfg: Config, w: World): Outcome {
    var container := Strip(q.container);
    if container == "" || !w.admitted || !(1 <= q.port <= 65535) then Outcome(rows, Err(Invalid))
    else if ContainerTaken(rows, container) then Outcome(rows, Err(Conflict))
    else if NormalizeTools(cfg).Err? then Outcome(rows, Err(NormalizeTools(cfg).error))
    else if ValidationError(Enumerated(q.gpus), w).Some? then Outcome(rows, Err(ValidationError(Enumerated(q.gpus), w).value))
    else
      Outcome(rows + [Row(newId, c.node, c.version, true, false, Some(container), Some(q.port), NormalizeTools(cfg).value, Enumerated(q.gpus))],
              Ok(Created(newId)))
  }

  /** `create_deployment_from_cache`. */
  function Create(rows: Table, newId: Id, q: Request, w: World): Outcome {
    if q.cache == None then Outcome(rows, Err(NotFound))
    else
      var c := q.cache.value;
      if FullConfig(q, c).Err? then Outcome(rows, Err(FullConfig(q, c).error))
      else
        var cfg := FullConfig(q, c).value;
        match FindIdempotent(rows, RequestedSpec(q, c, cfg))
        case Err(e) => Outcome(rows, Err(e))
        case Ok(Some(r)) => Outcome(rows, Ok(Reused(r.id)))
        case Ok(None) =>
          if w.fit.FitInsufficient? || (w.fit.FitUnknown? && !q.acknowledgeUnknown) then Outcome(rows, Err(Invalid))
          else StoreRow(rows, newId, q, c, cfg, w)
  }

  // ------------------------------------------------------------- as they run

  /** `normalize_auto_tool_calling_config`: works on a copy of the dictionary. */
  method NormalizeAutoToolCalling(config: Config) returns (r: Result<Config, Error>)
    ensures r == NormalizeTools(config)
  {
    hide Strip, Lower;
    var out := config;
    var enable, parser := Null, None;
    if ENABLE in out {
      var raw := out[ENABLE];
      if raw.Null? {
        out := out - {ENABLE};
      } else if raw.Flag? {
        enable := raw;
        out := out[ENABLE := raw];
      } else {
        return Err(Invalid);
      }
    }
    if PARSER in out {
      var raw := out[PARSER];
      if raw.Null? {
        out := out - {PARSER};
      } else if !raw.Text? {
        return Err(Invalid);
      } else {
        var normalized := Lower(Strip(raw.s));
        if normalized == "" {
          out := out - {PARSER};
        } else if normalized != "hermes" {
          return Err(Invalid);
        } else {
          parser := Some(normalized);
          out := out[PARSER := Text(normalized)];
        }
      }
    }
    if enable == Flag(true) && parser == None {
      return Err(Invalid);
    }
    if enable != Flag(true) && parser != None {
      return Err(Invalid);
    }
    assert NormalizeTools(config).Ok? && out == NormalizeTools(config).value;
    r := Ok(out);
  }

  /** `_require_unique_gpu_ids`: the list itself, or the identifiers that occur twice. */
  method RequireUniqueGpuIds(ids: seq<Id>) returns (r: Result<seq<Id>, set<Id>>)
    ensures Distinct(ids) ==> r == Ok(ids)
    ensures !Distinct(ids) ==> r.Err? && forall x :: x in r.error <==> exists i, j :: 0 <= i < j < |ids| && ids[i] == ids[j] == x
  {
    var seen: set<Id>, ordered: seq<Id>, duplicates: set<Id> := {}, [], {};
    for n := 0 to |ids|
      invariant forall x :: x in seen <==> x in ids[..n]
      invariant forall x :: x in duplicates <==> exists i, j :: 0 <= i < j < n && ids[i] == ids[j] == x
      invariant duplicates == {} ==> ordered == ids[..n]
    {
      assert ids[..n + 1] == ids[..n] + [ids[n]];
      if ids[n] in seen {
        var k :| 0 <= k < n && ids[..n][k] == ids[n];
        assert ids[k] == ids[n];
        duplicates := duplicates + {ids[n]};
      } else {
        seen := seen + {ids[n]};
        ordered := ordered + [ids[n]];
      }
    }
    assert ids[..|ids|] == ids;
    if duplicates != {} {
      var x :| x in duplicates;
      r := Err(duplicates);
    } else {
      forall i, j | 0 <= i < j < |ids| ensures ids[i] != ids[j] {
        assert ids[i] !in duplicates;
      }
      r := Ok(ordered);
    }
  }

  /** `_validate_gpu_assignments`: the list itself, or the error of the first bad entry. */
  method ValidateGpuAssignments(a: seq<Assignment>, w: World) returns (r: Result<seq<Assignment>, Error>)
    ensures r == if ValidationError(a, w).Some? then Err(ValidationError(a, w).value) else Ok(a)
  {
    var seenGpus: set<Id>, seenOrders: set<int>, validated: seq<Assignment> := {}, {}, [];
    for n := 0 to |a|
      invariant forall x :: x in seenGpus <==> exists j :: 0 <= j < n && a[j].gpu == x
      invariant forall x :: x in seenOrders <==> exists j :: 0 <= j < n && a[j].order == x
      invariant validated == a[..n]
      invariant FirstError(a, n, w) == None
    {
      var error: Option<Error> := None;
      if a[n].order < 0 {
        error := Some(Invalid);
      } else if a[n].gpu in seenGpus || a[n].order in seenOrders {
        error := Some(Conflict);
      } else if a[n].gpu !in w.knownGpus {
        error := Some(NotFound);
      } else if a[n].gpu !in w.nodeGpus {
        error := Some(Invalid);
      }
      assert error == AssignmentError(a, n, w);
      if error.Some? {
        FirstErrorStays(a, n + 1, |a|, w);
        return Err(error.value);
      }
      seenGpus, seenOrders, validated := seenGpus + {a[n].gpu}, seenOrders + {a[n].order}, validated + [a[n]];
    }
    assert a[..|a|] == a;
    r := Ok(validated);
  }

  lemma {:induction false} FirstErrorStays(a: seq<Assignment>, n: nat, m: nat, w: World)
    requires n <= m <= |a| && FirstError(a, n, w).Some?
    ensures FirstError(a, m, w) == FirstError(a, n, w)
  {
    if n < m {
      FirstErrorStays(a, n, m - 1, w);
    }
  }

  /** The loops of `_find_idempotent_deployment`. */
  method FindIdempotentDeployment(rows: Table, want: Spec) returns (r: Result<Option<Row>, Error>)
    ensures r == FindIdempotent(rows, want)
  {
    hide ExistingSpec, SpecDiff, Candidate;
    var candidates: seq<Row> := [];
    for n := 0 to |rows|
      invariant candidates == Candidates(rows[..n], want)
    {
      assert rows[..n + 1][..n] == rows[..n];
      if Candidate(rows[n], want) {
        candidates := candidates + [rows[n]];
      }
    }
    assert rows[..|rows|] == rows;
    if candidates != [] {
      var changed := SpecDiff(want, ExistingSpec(candidates[0]));
      if changed == [] {
        return Ok(Some(candidates[0]));
      }
      return Err(SpecConflict(candidates[0].id));
    }
    r := Ok(None);
  }

  class CacheDeployService {
    var rows: Table
    var nextId: Id

    constructor ()
      ensures rows == []
    {
      rows, nextId := [], 0;
    }

    /** `create_deployment_from_cache`. */
    method CreateDeploymentFromCache(q: Request, w: World) returns (reply: Result<Reply, Error>)
      modifies this
      ensures Outcome(rows, reply) == Create(old(rows), old(nextId), q, w)
      ensures nextId == old(nextId) + if reply.Ok? && reply.value.Created? then 1 else 0
    {
      hide NormalizeTools, FindIdempotent, CriticalConfig, IntOf, Strip, NormalizeValue;
      if q.cache == None {
        return Err(NotFound);
      }
      var c := q.cache.value;
      if !c.ready || c.localPath == None || c.localPath == Some("") {
        return Err(Invalid);
      }
      var unique := RequireUniqueGpuIds(q.gpus);
      if unique.Err? {
        return Err(Invalid);
      }
      var cfg := q.runtimeConfig;
      var tp := TensorParallel(q);
      if tp == None {
        return Err(Unhandled);
      }
      if tp.value != |q.gpus| {
        return Err(Invalid);
      }
      cfg := cfg["tensor_parallel_size" := Int(tp.value)];
      var served := ServedName(q, c);
      if served == "" {
        return Err(Invalid);
      }
      cfg := cfg["served_model_name" := Text(served)];
      cfg := WithDefaults(cfg, c.modelType);
      cfg := cfg["model_path" := Text(c.localPath.value)];
      cfg := cfg["network_names" := List([Text("modelops-model")])];
      cfg := cfg["source_cache_id" := Text(c.id)];
      cfg := cfg["runtime_port" := Int(q.port)];
      var existing := FindIdempotentDeployment(rows, RequestedSpec(q, c, cfg));
      if existing.Err? {
        return Err(existing.error);
      }
      if existing.value.Some? {
        return Ok(Reused(existing.value.value.id));
      }
      if w.fit.FitInsufficient? || (w.fit.FitUnknown? && !q.acknowledgeUnknown) {
        return Err(Invalid);
      }
      reply := CreateManaged(q, c, cfg, w);
    }

    method CreateManaged(q: Request, c: Cache, cfg: Config, w: World) returns (reply: Result<Reply, Error>)
      modifies this
      ensures Outcome(rows, reply) == StoreRow(old(rows), old(nextId), q, c, cfg, w)
      ensures nextId == old(nextId) + if reply.Ok? then 1 else 0
    {
      hide NormalizeTools, Strip;
      var container := Strip(q.container);
      if container == "" || !w.admitted || !(1 <= q.port <= 65535) {
        return Err(Invalid);
      }
      if ContainerTaken(rows, container) {
        return Err(Conflict);
      }
      var config := NormalizeAutoToolCalling(cfg);
      if config.Err? {
        return Err(config.error);
      }
      var validated := ValidateGpuAssignments(Enumerated(q.gpus), w);
      if validated.Err? {
        return Err(validated.error);
      }
      rows := rows + [Row(nextId, c.node, c.version, true, false, Some(container), Some(q.port), config.value, validated.value)];
      reply := Ok(Created(nextId));
      nextId := nextId + 1;
    }
  }
}
