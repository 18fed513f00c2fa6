/** The control plane: its tables as one state, and every management request and worker
    action as one atomic step on them. Sources: `services/switch.py`,
    `services/operations.py`, `services/endpoints.py`, `services/deployments.py`,
    `services/models.py` and their repositories. A step is a function from the old state to
    the new state and the reply; each check fails with the error, and in the order, of the
    service that makes it. */
module ControlPlane {
  import opened Prelude

  type Id = nat
  type Key = s: string | s != "" witness "k"

  // ------------------------------------------------------------------ tables

  datatype ModelType = Llm | Vlm | Embedding
  datatype ApiType = ChatApi | EmbeddingApi
  datatype DesiredState = WantRunning | WantStopped | WantRemoved
  datatype RuntimeStatus = RtCreated | RtRunning | RtStopped | RtFailed | RtUnknown
  datatype HealthStatus = HsUnknown | HsStarting | HsHealthy | HsDegraded | HsUnhealthy
  datatype TrafficState = Serving | Draining | Maintenance

  datatype Version = Version(modelType: ModelType, archived: bool)

  datatype Deployment = Deployment(
    name: string, version: Id, node: Option<Id>, managed: bool, desired: DesiredState, runtime: RuntimeStatus,
    health: HealthStatus, container: Option<string>, gpus: seq<Id>, retired: bool)

  datatype Alias = Alias(name: string, api: ApiType, enabled: bool, traffic: TrafficState)

  datatype Route = Route(aliasId: Id, deployment: Id, active: bool, rewrite: Option<string>)

  datatype OpKind = OpStart | OpStop | OpRestart | OpDelete | OpSwitch
  datatype OpStatus =
    | Queued | Running | RollingBack
    | Succeeded | Failed | RolledBack | Cancelled | ManualIntervention
  datatype Strategy = Cold | Hot
  datatype StepStatus = StepPending | StepRunning | StepSucceeded | StepFailed | StepSkipped
  datatype Step = Step(sequence: nat, code: string, status: StepStatus, finishedAt: Option<int>)
  datatype JobStatus = JobQueued | JobRunning | JobDone | JobFailed
  datatype Job = Job(status: JobStatus, maxAttempts: int)

  datatype Timeouts = Timeouts(drain: Option<int>, health: Option<int>, vramRelease: Option<int>, gatewayApply: Option<int>)
  datatype Flag = HotForward | SourceRetirement | HotRetry | ForwardColdOnly | RollbackNotImplemented

  /** `metadata_json`. `transient` is what the worker keeps there while it runs. */
  datatype Meta = Meta(
    strategy: Option<Strategy>, timeouts: Timeouts, flags: set<Flag>, reason: Option<string>,
    destructive: bool, cancelReason: Option<string>, transient: map<string, string>)

  /** `sourceRoute` is the route row a hot switch leaves, kept in the detail of its
      ACTIVATE_TARGET_ROUTE step. */
  datatype Operation = Operation(
    kind: OpKind, status: OpStatus, strategy: Option<Strategy>, aliasId: Option<Id>, source: Option<Id>,
    target: Option<Id>, retryOf: Option<Id>, key: Option<Key>, reason: Option<string>, requestedBy: Option<string>,
    meta: Meta, steps: seq<Step>, job: Option<Job>, cancelRequestedAt: Option<int>, finishedAt: Option<int>,
    sourceRoute: Option<Id>)

  /** `keyIndex` is the unique index on operation idempotency keys. Identifiers are taken
      from a counter: all that matters about them is that a new one is fresh. */
  datatype State = State(
    versions: map<Id, Version>, deployments: map<Id, Deployment>, aliases: map<Id, Alias>, routes: map<Id, Route>,
    operations: map<Id, Operation>, keyIndex: map<Key, Id>, routingVersion: nat, nextId: Id)

  const EMPTY_STATE := State(map[], map[], map[], map[], map[], map[], 0, 0)

  datatype Code =
    | Plain | SwitchAlreadyInProgress | EndpointBusy | InvalidOperationState | IdempotencyKeyConflict
    | ActiveRouteExists | AmbiguousActiveRoutes | RouteTargetChanged | RouteMutationBusy | RuntimeStillRunning
    | ActiveLifecycleOperation | ActiveDeploymentExists | ActiveDownloadJob

  datatype Error = NotFound | Invalid | Conflict(code: Code)

  datatype Reply =
    | OperationReply(id: Id)
    | RouteReply(route: Id, version: nat, reused: bool)
    | UnpublishReply(previous: Option<Id>, version: nat, changed: bool)
    | RowReply(row: Id)
    | Done

  datatype Outcome = Outcome(state: State, reply: Result<Reply, Error>)

  // ----------------------------------------------------------------- queries

  predicate Active(status: OpStatus) {
    status.Queued? || status.Running? || status.RollingBack?
  }

  predicate ColdOrHotSwitch(o: Operation) {
    o.kind.OpSwitch? && o.strategy.Some?
  }

  function IdSet(x: Option<Id>): set<Id> {
    if x.Some? then {x.value} else {}
  }

  /** The deployments an operation names as source or target. */
  function Touches(o: Operation): set<Id> {
    IdSet(o.source) + IdSet(o.target)
  }

  /** `find_active_for_deployment` finds something. */
  predicate ActiveOperationOn(operations: map<Id, Operation>, d: Id) {
    exists i :: i in operations && Active(operations[i].status) && d in Touches(operations[i])
  }

  /** `find_active_switch_for_endpoint` finds something. */
  predicate ActiveSwitchOn(operations: map<Id, Operation>, a: Id) {
    exists i :: i in operations && Active(operations[i].status) && operations[i].kind.OpSwitch? && operations[i].aliasId == Some(a)
  }

  /** `find_active_retry_of` finds something. */
  predicate ActiveRetryOf(operations: map<Id, Operation>, o: Id) {
    exists i :: i in operations && Active(operations[i].status) && operations[i].retryOf == Some(o)
  }

  predicate IsActiveRoute(routes: map<Id, Route>, r: Id, a: Id) {
    r in routes && routes[r].active && routes[r].aliasId == a
  }

  /** `get_active_route`. */
  ghost function ActiveRoute(routes: map<Id, Route>, a: Id): (r: Option<Id>)
    ensures r.Some? ==> IsActiveRoute(routes, r.value, a)
    ensures r.None? ==> forall i :: !IsActiveRoute(routes, i, a)
  {
    if exists i :: IsActiveRoute(routes, i, a) then
      var i :| IsActiveRoute(routes, i, a);
      Some(i)
    else None
  }

  /** `list_active_routes_for_deployment`, as a set. */
  function RoutesTo(routes: map<Id, Route>, d: Id): set<Id> {
    set r | r in routes && routes[r].active && routes[r].deployment == d
  }

  /** The error a caller of `get_active_publication_for_deployment` raises, if any. */
  function PublicationError(routes: map<Id, Route>, d: Id): Option<Error> {
    if |RoutesTo(routes, d)| > 1 then Some(Conflict(AmbiguousActiveRoutes))
    else if |RoutesTo(routes, d)| == 1 then Some(Conflict(ActiveRouteExists))
    else None
  }

  predicate Compatible(api: ApiType, model: ModelType) {
    match api
    case ChatApi => model.Llm? || model.Vlm?
    case EmbeddingApi => model.Embedding?
  }

  predicate StillUp(d: Deployment) {
    d.runtime.RtRunning? || d.health.HsStarting?
  }

  // ------------------------------------------------------------- operations

  const COLD_SWITCH_STEPS: seq<string> := [
    "VALIDATE", "PREFLIGHT", "PREPARE_TARGET", "DRAIN_TRAFFIC", "STOP_SOURCE", "WAIT_VRAM_RELEASE", "START_TARGET",
    "WAIT_TARGET_HEALTH", "PROBE_TARGET", "ACTIVATE_TARGET_ROUTE", "WAIT_ROUTE_APPLY", "RESTORE_TRAFFIC",
    "WAIT_TRAFFIC_APPLY", "FINALIZE"]

  const HOT_SWITCH_STEPS: seq<string> := [
    "VALIDATE", "PREFLIGHT", "PREPARE_TARGET", "START_TARGET", "WAIT_TARGET_HEALTH", "PROBE_TARGET",
    "ACTIVATE_TARGET_ROUTE", "WAIT_ROUTE_APPLY", "WAIT_SOURCE_DRAIN", "STOP_SOURCE", "VERIFY_SOURCE_STOPPED", "FINALIZE"]

  function SwitchSteps(strategy: Strategy): seq<string> {
    match strategy
    case Cold => COLD_SWITCH_STEPS
    case Hot => HOT_SWITCH_STEPS
  }

  function LifecycleSteps(kind: OpKind): seq<string>
    requires !kind.OpSwitch?
  {
    match kind
    case OpStart => ["PREPARE_ARTIFACTS", "ENSURE_CONTAINER", "START_CONTAINER", "WAIT_HEALTH", "PROBE_INFERENCE"]
    case OpStop => ["STOP_CONTAINER"]
    case OpRestart => ["RESTART_CONTAINER", "WAIT_HEALTH", "PROBE_INFERENCE"]
    case OpDelete => ["STOP_CONTAINER", "REMOVE_CONTAINER"]
  }

  function DesiredOnEnqueue(kind: OpKind): DesiredState
    requires !kind.OpSwitch?
  {
    match kind
    case OpStart => WantRunning
    case OpStop => WantStopped
    case OpRestart => WantRunning
    case OpDelete => WantRemoved
  }

  /** The step rows of a new operation: sequence numbers from 1, all pending. */
  function PendingSteps(codes: seq<string>): (r: seq<Step>)
    ensures |r| == |codes| && forall i :: 0 <= i < |r| ==> r[i] == Step(i + 1, codes[i], StepPending, None)
  {
    seq(|codes|, i requires 0 <= i < |codes| => Step(i + 1, codes[i], StepPending, None))
  }

  function AtLeastOne(n: int): int {
    if n < 1 then 1 else n
  }

  /** Inserts an operation row under a fresh id, and its key into the unique index. */
  function AddOperation(s: State, o: Operation): State {
    s.(operations := s.operations[s.nextId := o],
       keyIndex := if o.key.Some? then s.keyIndex[o.key.value := s.nextId] else s.keyIndex,
       nextId := s.nextId + 1)
  }

  function NewOperation(kind: OpKind, strategy: Option<Strategy>, aliasId: Option<Id>, source: Option<Id>, target: Option<Id>,
                        retryOf: Option<Id>, key: Option<Key>, reason: Option<string>, requestedBy: Option<string>,
                        meta: Meta, codes: seq<string>, maxAttempts: int): Operation
  {
    Operation(kind, Queued, strategy, aliasId, source, target, retryOf, key, reason, requestedBy, meta,
              PendingSteps(codes), Some(Job(JobQueued, AtLeastOne(maxAttempts))), None, None, None)
  }

  // --------------------------------------------------------- lifecycle enqueue

  function RequireManaged(s: State, d: Id): Option<Error> {
    if d !in s.deployments then Some(NotFound)
    else if !s.deployments[d].managed then Some(Invalid)
    else if s.deployments[d].retired then Some(Conflict(Plain))
    else if s.deployments[d].node == None then Some(Invalid)
    else if s.deployments[d].container == None || s.deployments[d].container == Some("") then Some(Invalid)
    else None
  }

  function RequireSafeForRemove(s: State, d: Id): Option<Error>
    requires d in s.deployments
  {
    if PublicationError(s.routes, d).Some? then PublicationError(s.routes, d)
    else if StillUp(s.deployments[d]) then Some(Conflict(RuntimeStillRunning))
    else None
  }

  function LifecycleError(s: State, d: Id, kind: OpKind): Option<Error> {
    if RequireManaged(s, d).Some? then RequireManaged(s, d)
    else if ActiveOperationOn(s.operations, d) then Some(Conflict(Plain))
    else if kind.OpDelete? then RequireSafeForRemove(s, d)
    else None
  }

  const NO_TIMEOUTS := Timeouts(None, None, None, None)

  function LifecycleMeta(reason: Option<string>): Meta {
    Meta(None, NO_TIMEOUTS, {}, Truthy(reason), false, None, map[])
  }

  /** Python truth of an optional string. */
  function Truthy(x: Option<string>): Option<string> {
    if x == Some("") then None else x
  }

  /** `enqueue_lifecycle`. */
  function EnqueueLifecycle(s: State, d: Id, kind: OpKind, key: Option<Key>, reason: Option<string>,
                            requestedBy: Option<string>, maxAttempts: int): Outcome
  {
    if kind.OpSwitch? then Outcome(s, Err(Invalid))
    else if key.Some? && key.value in s.keyIndex then Outcome(s, Ok(OperationReply(s.keyIndex[key.value])))
    else
      var e := LifecycleError(s, d, kind);
      if e.Some? then Outcome(s, Err(e.value)) else
        var t := s.(deployments := s.deployments[d := s.deployments[d].(desired := DesiredOnEnqueue(kind))]);
        var o := NewOperation(kind, None, None, None, Some(d), None, key, reason, requestedBy, LifecycleMeta(reason),
                              LifecycleSteps(kind), maxAttempts);
        Outcome(AddOperation(t, o), Ok(OperationReply(s.nextId)))
  }

  // ------------------------------------------------------------ switch enqueue

  /** The part of `_validate_cold_switch_baseline` before the active-operation checks: the
      source deployment, or the first error. */
  ghost function Baseline(s: State, a: Id, target: Id, expectedSource: Option<Id>, conflictOnUnsafe: bool): Result<Id, Error> {
    if a !in s.aliases then Err(NotFound)
    else if !s.aliases[a].enabled then Err(Invalid)
    else if !s.aliases[a].traffic.Serving? then Err(if conflictOnUnsafe then Conflict(InvalidOperationState) else Invalid)
    else if ActiveRoute(s.routes, a) == None then Err(Invalid)
    else
      var source := s.routes[ActiveRoute(s.routes, a).value].deployment;
      if expectedSource.Some? && expectedSource.value != source then Err(Conflict(InvalidOperationState))
      else if source == target then Err(Invalid)
      else if source !in s.deployments then Err(Invalid)
      else if target !in s.deployments then Err(NotFound)
      else
        var from, to := s.deployments[source], s.deployments[target];
        if to.retired then Err(Invalid)
        else if !from.managed || !to.managed then Err(Invalid)
        else if !from.runtime.RtRunning? || !from.health.HsHealthy? then Err(Invalid)
        else if from.node == None || to.node == None || from.node != to.node then Err(Invalid)
        else if to.gpus == [] then Err(Invalid)
        else if to.version !in s.versions then Err(Invalid)
        else if !Compatible(s.aliases[a].api, s.versions[to.version].modelType) then Err(Invalid)
        else Ok(source)
  }

  datatype RequestedStrategy = AskCold | AskHot | AskAlternateNode | AskAuto | AskUnknown

  datatype SwitchTimeouts = SwitchTimeouts(drain: int, health: int, vramRelease: int, gatewayApply: int)

  predicate TimeoutsPositive(t: SwitchTimeouts) {
    t.drain >= 1 && t.health >= 1 && t.vramRelease >= 1 && t.gatewayApply >= 1
  }

  function SwitchMeta(strategy: Strategy, t: SwitchTimeouts, reason: Option<string>): Meta {
    Meta(Some(strategy),
         Timeouts(Some(t.drain), Some(t.health), Some(t.vramRelease), Some(t.gatewayApply)),
         match strategy case Hot => {HotForward, SourceRetirement} case Cold => {ForwardColdOnly, RollbackNotImplemented},
         Truthy(reason), false, None, map[])
  }

  /** `_create_switch_operation`. */
  function CreateSwitch(s: State, a: Id, source: Id, target: Id, strategy: Strategy, reason: Option<string>,
                        requestedBy: Option<string>, key: Option<Key>, meta: Meta, maxAttempts: int, retryOf: Option<Id>): State
  {
    AddOperation(s, NewOperation(OpSwitch, Some(strategy), Some(a), Some(source), Some(target), retryOf, key, reason,
                                 requestedBy, meta, SwitchSteps(strategy), maxAttempts))
  }

  /** `enqueue_cold_switch`. */
  ghost function EnqueueSwitch(s: State, a: Id, target: Id, ask: RequestedStrategy, t: SwitchTimeouts, key: Option<Key>,
                               reason: Option<string>, requestedBy: Option<string>, maxAttempts: int): Outcome
  {
    if key.Some? && key.value in s.keyIndex then Outcome(s, Ok(OperationReply(s.keyIndex[key.value])))
    else if !ask.AskCold? && !ask.AskHot? then Outcome(s, Err(Invalid))
    else if !TimeoutsPositive(t) then Outcome(s, Err(Invalid))
    else
      var base := Baseline(s, a, target, None, false);
      if base.Err? then Outcome(s, Err(base.error))
      else if ActiveSwitchOn(s.operations, a) then Outcome(s, Err(Conflict(SwitchAlreadyInProgress)))
      else if ActiveOperationOn(s.operations, base.value) || ActiveOperationOn(s.operations, target) then Outcome(s, Err(Conflict(EndpointBusy)))
      else
        var strategy := if ask.AskHot? then Hot else Cold;
        Outcome(CreateSwitch(s, a, base.value, target, strategy, reason, requestedBy, key, SwitchMeta(strategy, t, reason),
                             maxAttempts, None),
                Ok(OperationReply(s.nextId)))
  }

  // -------------------------------------------------------------------- retry

  function Default(x: Option<int>, d: int): Option<int> {
    if x.Some? then x else Some(d)
  }

  /** The timeouts a retry runs with. */
  function EffectiveTimeouts(t: Timeouts): Timeouts {
    Timeouts(Default(t.drain, 60), Default(t.health, 300), Default(t.vramRelease, 30), Default(t.gatewayApply, 30))
  }

  function RetryFlags(strategy: Strategy): set<Flag> {
    match strategy
    case Hot => {HotForward, SourceRetirement, HotRetry}
    case Cold => {ForwardColdOnly}
  }

  /** `_retry_metadata_from_original` and the reason added after it: a whitelist. */
  function RetryMeta(original: Meta, strategy: Strategy, reason: Option<string>): Meta {
    Meta(Some(strategy), EffectiveTimeouts(original.timeouts), RetryFlags(strategy),
         if Truthy(original.reason).Some? then original.reason else Truthy(reason),
         false, None, map[])
  }

  predicate RetryEligible(status: OpStatus) {
    status.Failed? || status.RolledBack?
  }

  /** The checks of `retry_switch` on the original operation itself. */
  function RetryOriginalError(s: State, id: Id): Option<Error> {
    if id !in s.operations then Some(NotFound)
    else
      var o := s.operations[id];
      if !ColdOrHotSwitch(o) || !RetryEligible(o.status) || (o.status.Failed? && o.meta.destructive)
         || ActiveRetryOf(s.operations, id) || o.aliasId == None || o.source == None || o.target == None
      then Some(Conflict(InvalidOperationState))
      else None
  }

  /** A hot retry reports an unsafe baseline as a conflict. */
  function RetryBaselineError(hot: bool, e: Error): Error {
    if hot && e.Invalid? then Conflict(InvalidOperationState) else e
  }

  function RetryAttempts(job: Option<Job>): int {
    if job.Some? && job.value.maxAttempts != 0 then job.value.maxAttempts else 3
  }

  /** `retry_switch`: a new operation under the old one's lineage. */
  ghost function RetrySwitch(s: State, id: Id, key: Option<Key>, requestedBy: Option<string>): Outcome {
    if key.Some? && key.value in s.keyIndex then
      var existing := s.keyIndex[key.value];
      if existing in s.operations && s.operations[existing].retryOf == Some(id) then Outcome(s, Ok(OperationReply(existing)))
      else Outcome(s, Err(Conflict(IdempotencyKeyConflict)))
    else
      var e := RetryOriginalError(s, id);
      if e.Some? then Outcome(s, Err(e.value)) else
        var o := s.operations[id];
        var a, source, target, strategy := o.aliasId.value, o.source.value, o.target.value, o.strategy.value;
        if ActiveSwitchOn(s.operations, a) then Outcome(s, Err(Conflict(InvalidOperationState))) else
          var base := Baseline(s, a, target, Some(source), true);
          if base.Err? then Outcome(s, Err(RetryBaselineError(strategy.Hot?, base.error)))
          else if strategy.Hot? && (!s.deployments[source].desired.WantRunning? || !s.deployments[target].desired.WantRunning?) then
            Outcome(s, Err(Conflict(InvalidOperationState)))
          else if ActiveOperationOn(s.operations, source) || ActiveOperationOn(s.operations, target) then
            Outcome(s, Err(Conflict(InvalidOperationState)))
          else
            Outcome(CreateSwitch(s, a, source, target, strategy, o.reason,
                                 if Truthy(requestedBy).Some? then requestedBy else o.requestedBy,
                                 key, RetryMeta(o.meta, strategy, o.reason), RetryAttempts(o.job), Some(id)),
                    Ok(OperationReply(s.nextId)))
  }

  // ------------------------------------------------------------------- cancel

  predicate OpenStep(st: StepStatus) {
    st.StepPending? || st.StepRunning?
  }

  function SkipOpen(step: Step, now: int): Step {
    if OpenStep(step.status) then step.(status := StepSkipped, finishedAt := Some(now)) else step
  }

  function SkipAll(steps: seq<Step>, now: int): (r: seq<Step>)
    ensures |r| == |steps| && forall i :: 0 <= i < |r| ==> r[i] == SkipOpen(steps[i], now)
  {
    seq(|steps|, i requires 0 <= i < |steps| => SkipOpen(steps[i], now))
  }

  function FailJob(job: Option<Job>): Option<Job> {
    if job.Some? && !job.value.status.JobFailed? && !job.value.status.JobDone?
    then Some(job.value.(status := JobFailed)) else job
  }

  /** `finalize_operation_cancelled`. */
  function FinalizeCancelled(o: Operation, now: int): Operation {
    o.(cancelRequestedAt := if o.cancelRequestedAt.Some? then o.cancelRequestedAt else Some(now),
       status := Cancelled,
       finishedAt := if o.status.Cancelled? then o.finishedAt else Some(now),
       steps := SkipAll(o.steps, now),
       job := FailJob(o.job))
  }

  function PatchReason(o: Operation, reason: Option<string>): Operation {
    if Truthy(reason).Some? then o.(meta := o.meta.(cancelReason := reason)) else o
  }

  predicate StillQueued(o: Operation) {
    o.status.Queued? && (o.job == None || o.job.value.status.JobQueued?)
  }

  datatype CancelDecision = CancelDone | IntentOnly | Idempotent | AlreadyTerminal

  /** `apply_cancel_decision` on the locked row. */
  function ApplyCancel(o: Operation, reason: Option<string>, now: int): (Operation, CancelDecision) {
    if o.status.Cancelled? || (o.status.RolledBack? && o.cancelRequestedAt.Some?) then (PatchReason(o, reason), Idempotent)
    else if !Active(o.status) then (o, AlreadyTerminal)
    else
      var stamped := PatchReason(o.(cancelRequestedAt := if o.cancelRequestedAt.Some? then o.cancelRequestedAt else Some(now)), reason);
      if StillQueued(o) then (FinalizeCancelled(stamped, now), CancelDone) else (stamped, IntentOnly)
  }

  /** `cancel_operation`. */
  function CancelOperation(s: State, id: Id, reason: Option<string>, now: int): Outcome {
    if id !in s.operations then Outcome(s, Err(NotFound))
    else if !ColdOrHotSwitch(s.operations[id]) then Outcome(s, Err(Conflict(InvalidOperationState)))
    else
      var (o, decision) := ApplyCancel(s.operations[id], reason, now);
      if decision.AlreadyTerminal? then Outcome(s, Err(Conflict(InvalidOperationState)))
      else Outcome(s.(operations := s.operations[id := o]), Ok(OperationReply(id)))
  }

  // ------------------------------------------------------------------- routes

  function Deactivated(routes: map<Id, Route>, a: Id): (r: map<Id, Route>)
    ensures r.Keys == routes.Keys
  {
    map i | i in routes :: if routes[i].aliasId == a then routes[i].(active := false) else routes[i]
  }

  /** The rewrite name as stored: blank text is stripped to the empty string, not to none. */
  function RequestedRewrite(rewrite: Option<string>): Option<string> {
    if Truthy(rewrite).Some? then Some(Strip(rewrite.value)) else None
  }

  function RouteTargetError(s: State, a: Id, d: Id): Option<Error> {
    if a !in s.aliases then Some(NotFound)
    else if d !in s.deployments || s.deployments[d].version !in s.versions then Some(NotFound)
    else if s.deployments[d].retired then Some(Invalid)
    else if !s.deployments[d].desired.WantRunning? then Some(Invalid)
    else if !s.deployments[d].runtime.RtRunning? then Some(Invalid)
    else if !s.deployments[d].health.HsHealthy? then Some(Invalid)
    else if !Compatible(s.aliases[a].api, s.versions[s.deployments[d].version].modelType) then Some(Invalid)
    else None
  }

  function AddRoute(s: State, routes: map<Id, Route>, route: Route): State {
    s.(routes := routes[s.nextId := route], routingVersion := s.routingVersion + 1, nextId := s.nextId + 1)
  }

  /** `_activate_route`; `locksFree` is whether the advisory locks could be taken. */
  ghost function ActivateRoute(s: State, a: Id, d: Id, rewrite: Option<string>, requireNoActive: bool, locksFree: bool): Outcome {
    if !locksFree then Outcome(s, Err(Conflict(RouteMutationBusy)))
    else if RouteTargetError(s, a, d).Some? then Outcome(s, Err(RouteTargetError(s, a, d).value))
    else
      var existing := ActiveRoute(s.routes, a);
      var requested := RequestedRewrite(rewrite);
      if requireNoActive && existing.Some? then
        if s.routes[existing.value].deployment == d && RequestedRewrite(s.routes[existing.value].rewrite) == requested
        then Outcome(s, Ok(RouteReply(existing.value, s.routingVersion, true)))
        else Outcome(s, Err(Conflict(ActiveRouteExists)))
      else
        var routes := if requireNoActive then s.routes else Deactivated(s.routes, a);
        Outcome(AddRoute(s, routes, Route(a, d, true, requested)), Ok(RouteReply(s.nextId, s.routingVersion + 1, false)))
  }

  /** `unpublish`. */
  ghost function Unpublish(s: State, a: Id, expected: Option<Id>, locksFree: bool): Outcome {
    if !locksFree then Outcome(s, Err(Conflict(RouteMutationBusy)))
    else if a !in s.aliases then Outcome(s, Err(NotFound))
    else if ActiveRoute(s.routes, a) == None then Outcome(s, Ok(UnpublishReply(None, s.routingVersion, false)))
    else if expected == None then Outcome(s, Err(Invalid))
    else if s.routes[ActiveRoute(s.routes, a).value].deployment != expected.value then Outcome(s, Err(Conflict(RouteTargetChanged)))
    else
      Outcome(s.(routes := Deactivated(s.routes, a), routingVersion := s.routingVersion + 1),
              Ok(UnpublishReply(ActiveRoute(s.routes, a), s.routingVersion + 1, true)))
  }

  predicate AliasTaken(aliases: map<Id, Alias>, name: string) {
    exists a :: a in aliases && aliases[a].name == name
  }

  /** `create_endpoint`, for a name already in canonical form. */
  function CreateEndpoint(s: State, name: string, api: ApiType): Outcome {
    if AliasTaken(s.aliases, name) then Outcome(s, Err(Conflict(Plain)))
    else
      Outcome(s.(aliases := s.aliases[s.nextId := Alias(name, api, true, Serving)],
                 routingVersion := s.routingVersion + 1, nextId := s.nextId + 1),
              Ok(RowReply(s.nextId)))
  }

  /** `update_endpoint`, for the field the gateway sees. */
  function UpdateEndpoint(s: State, a: Id, enabled: Option<bool>): Outcome {
    if a !in s.aliases then Outcome(s, Err(NotFound))
    else if enabled.Some? && enabled.value != s.aliases[a].enabled then
      Outcome(s.(aliases := s.aliases[a := s.aliases[a].(enabled := enabled.value)], routingVersion := s.routingVersion + 1),
              Ok(RowReply(a)))
    else Outcome(s, Ok(RowReply(a)))
  }

  // -------------------------------------------------- deployments and versions

  function RequireVersion(s: State, v: Id): Option<Error> {
    if v !in s.versions then Some(NotFound)
    else if s.versions[v].archived then Some(Invalid)
    else None
  }

  predicate NameTaken(s: State, name: string) {
    exists d :: d in s.deployments && s.deployments[d].name == name
  }

  predicate ContainerTaken(s: State, container: string) {
    exists d :: d in s.deployments && !s.deployments[d].retired && s.deployments[d].container == Some(container)
  }

  function AddDeployment(s: State, d: Deployment): State {
    s.(deployments := s.deployments[s.nextId := d], nextId := s.nextId + 1)
  }

  /** `create_managed`, for GPU assignments that passed validation on a known node. */
  function CreateManaged(s: State, name: string, v: Id, node: Id, container: string, gpus: seq<Id>): Outcome {
    var n, c := Strip(name), Strip(container);
    if n == "" || c == "" then Outcome(s, Err(Invalid))
    else if RequireVersion(s, v).Some? then Outcome(s, Err(RequireVersion(s, v).value))
    else if NameTaken(s, n) || ContainerTaken(s, c) then Outcome(s, Err(Conflict(Plain)))
    else
      Outcome(AddDeployment(s, Deployment(n, v, Some(node), true, WantStopped, RtCreated, HsUnknown, Some(c), gpus, false)),
              Ok(RowReply(s.nextId)))
  }

  /** `import_deployment`, on a known node or none. */
  function ImportDeployment(s: State, name: string, v: Id, upstream: string, node: Option<Id>): Outcome {
    var n := Strip(name);
    if n == "" || Strip(upstream) == "" then Outcome(s, Err(Invalid))
    else if RequireVersion(s, v).Some? then Outcome(s, Err(RequireVersion(s, v).value))
    else if NameTaken(s, n) then Outcome(s, Err(Conflict(Plain)))
    else
      Outcome(AddDeployment(s, Deployment(n, v, node, false, WantRunning, RtRunning, HsUnknown, None, [], false)),
              Ok(RowReply(s.nextId)))
  }

  function RetireError(s: State, d: Id): Option<Error>
    requires d in s.deployments
  {
    if PublicationError(s.routes, d).Some? then PublicationError(s.routes, d)
    else if s.deployments[d].managed && StillUp(s.deployments[d]) then Some(Conflict(RuntimeStillRunning))
    else if ActiveOperationOn(s.operations, d) then Some(Conflict(ActiveLifecycleOperation))
    else None
  }

  /** `retire_deployment`. */
  function RetireDeployment(s: State, d: Id): Outcome {
    if d !in s.deployments then Outcome(s, Err(NotFound))
    else if s.deployments[d].retired then Outcome(s, Ok(RowReply(d)))
    else if RetireError(s, d).Some? then Outcome(s, Err(RetireError(s, d).value))
    else Outcome(s.(deployments := s.deployments[d := s.deployments[d].(retired := true, desired := WantRemoved)]), Ok(RowReply(d)))
  }

  predicate InUse(deployments: map<Id, Deployment>, v: Id) {
    exists d :: d in deployments && deployments[d].version == v && !deployments[d].retired
  }

  const JOB_LIMIT := 20

  /** The job query of `archive_version`: the first active jobs, in whatever order the rows
      come, each given by the version its artifact belongs to. */
  predicate JobSeen(jobs: seq<Option<Id>>, v: Id) {
    exists i :: 0 <= i < |jobs| && i < JOB_LIMIT && jobs[i] == Some(v)
  }

  /** `archive_version`; `jobs` are the active download jobs in the order they are listed. */
  function ArchiveVersion(s: State, v: Id, jobs: seq<Option<Id>>): Outcome {
    if v !in s.versions then Outcome(s, Err(NotFound))
    else if s.versions[v].archived then Outcome(s, Ok(RowReply(v)))
    else if InUse(s.deployments, v) then
      Outcome(s, Err(Conflict(ActiveDeploymentExists)))
    else if JobSeen(jobs, v) then Outcome(s, Err(Conflict(ActiveDownloadJob)))
    else Outcome(s.(versions := s.versions[v := s.versions[v].(archived := true)]), Ok(RowReply(v)))
  }

  // --------------------------------------------------------- worker and rest

  /** What the worker writes to an operation row. */
  function UpdateOperation(o: Operation, status: OpStatus, steps: seq<Step>, job: Option<Job>, meta: Meta): Operation {
    o.(status := status, steps := steps, job := job, meta := meta)
  }

  /** `claim_next_job` on one job. */
  function ClaimOperation(o: Operation): Operation {
    if o.job.Some? && o.job.value.status.JobQueued? then
      o.(job := Some(o.job.value.(status := JobRunning)), status := if o.status.Queued? then Running else o.status)
    else o
  }

  /** An INACTIVE route row from the alias to the deployment. */
  predicate IsIdleRoute(routes: map<Id, Route>, r: Id, a: Id, d: Id) {
    r in routes && !routes[r].active && routes[r].aliasId == a && routes[r].deployment == d
  }

  ghost function Greatest(ids: set<Id>): (r: Id)
    requires ids != {}
    ensures r in ids && forall x: Id :: x in ids ==> x <= r
  {
    var some :| some in ids;
    var others := ids - {some};
    if others == {} then
      assert forall x: Id :: x in ids ==> x == some || x in others;
      some
    else
      assert forall x: Id :: x in ids ==> x == some || x in others;
      var rest := Greatest(others);
      if rest < some then some else rest
  }

  /** The newest INACTIVE row; rows take their identifiers in the order of creation. */
  ghost function NewestIdle(routes: map<Id, Route>, a: Id, d: Id): (r: Option<Id>)
    ensures r.Some? ==> IsIdleRoute(routes, r.value, a, d) && forall x: Id :: IsIdleRoute(routes, x, a, d) ==> x <= r.value
    ensures r.None? ==> forall x: Id :: !IsIdleRoute(routes, x, a, d)
  {
    var idle := set r | r in routes && IsIdleRoute(routes, r, a, d);
    assert forall x: Id :: IsIdleRoute(routes, x, a, d) ==> x in idle;
    if idle == {} then None else Some(Greatest(idle))
  }

  /** What a cut-over step of the worker does to the routes. */
  datatype Plan = Stay | Reuse(row: Id) | InsertNew

  /** The route steps of a switch that moves its alias to the deployment d, forward to the
      target or back to the source. They refuse or have nothing to do when the ACTIVE route
      already leads to d or to a deployment that is neither end; a hot switch moves only a
      serving alias, forward only from its source, and back through the very row it left. All
      others switch the newest INACTIVE row on, or insert one. */
  ghost function CutOverPlan(s: State, o: Operation, d: Id): Plan {
    if o.aliasId == None || o.aliasId.value !in s.aliases || o.strategy == None || d !in Touches(o) then Stay
    else
      var a := o.aliasId.value;
      var active, newest := ActiveRoute(s.routes, a), NewestIdle(s.routes, a, d);
      if active.Some? && (s.routes[active.value].deployment == d || s.routes[active.value].deployment !in Touches(o)) then Stay
      else if o.strategy == Some(Hot) && !s.aliases[a].traffic.Serving? then Stay
      else if o.strategy == Some(Hot) && o.source == Some(d) then
        if o.sourceRoute.Some? && IsIdleRoute(s.routes, o.sourceRoute.value, a, d) then Reuse(o.sourceRoute.value) else Stay
      else if o.strategy == Some(Hot) && active == None then Stay
      else if newest.Some? then Reuse(newest.value)
      else InsertNew
  }

  /** The ACTIVE route of the alias is switched off and the planned row switched on or
      inserted; the version moves, and a hot switch going forward remembers the row it left. */
  ghost function CutOver(s: State, id: Id, d: Id): State
    requires id in s.operations
  {
    var o := s.operations[id];
    var plan := CutOverPlan(s, o, d);
    if plan.Stay? || o.aliasId == None then s
    else
      var a := o.aliasId.value;
      var off := Deactivated(s.routes, a);
      var moved :=
        if plan.Reuse? && plan.row in off
        then s.(routes := off[plan.row := off[plan.row].(active := true)], routingVersion := s.routingVersion + 1)
        else AddRoute(s, off, Route(a, d, true, None));
      moved.(operations := s.operations[id := LeaveRow(o, d, ActiveRoute(s.routes, a))])
  }

  function LeaveRow(o: Operation, d: Id, row: Option<Id>): Operation {
    if o.strategy == Some(Hot) && o.target == Some(d) then o.(sourceRoute := row) else o
  }

  /** `reopen_mir_for_resume`: the worker's reconciler puts an operation that needed manual
      intervention back to work. */
  function ReopenOperation(o: Operation, status: OpStatus): Operation {
    o.(status := status, job := if o.job.Some? then Some(o.job.value.(status := JobQueued)) else None, finishedAt := None)
  }

  datatype Request =
    | Lifecycle(deployment: Id, kind: OpKind, key: Option<Key>, reason: Option<string>, requestedBy: Option<string>, maxAttempts: int)
    | Switch(aliasId: Id, target: Id, ask: RequestedStrategy, timeouts: SwitchTimeouts, key: Option<Key>,
             reason: Option<string>, requestedBy: Option<string>, maxAttempts: int)
    | Retry(operation: Id, key: Option<Key>, requestedBy: Option<string>)
    | Cancel(operation: Id, reason: Option<string>, now: int)
    | SetRoute(aliasId: Id, deployment: Id, rewrite: Option<string>, initial: bool, locksFree: bool)
    | Withdraw(aliasId: Id, expected: Option<Id>, locksFree: bool)
    | NewEndpoint(name: string, api: ApiType)
    | PatchEndpoint(aliasId: Id, enabled: Option<bool>)
    | NewManaged(name: string, version: Id, node: Id, container: string, gpus: seq<Id>)
    | NewImported(name: string, version: Id, upstream: string, importNode: Option<Id>)
    | Retire(deployment: Id)
    | Archive(version: Id, jobs: seq<Option<Id>>)
    // The worker and what other services write.
    | Claim(operation: Id)
    | WorkOn(operation: Id, status: OpStatus, steps: seq<Step>, job: Option<Job>, meta: Meta)
    | Observe(deployment: Id, desired: DesiredState, runtime: RuntimeStatus, health: HealthStatus, gpus: seq<Id>)
    | SetTraffic(aliasId: Id, traffic: TrafficState)
    | MoveRoute(operation: Id, deployment: Id)
    | NewVersion(modelType: ModelType)
    | Reopen(operation: Id, status: OpStatus)

  predicate FromWorker(r: Request) {
    r.Claim? || r.WorkOn? || r.Observe? || r.SetTraffic? || r.MoveRoute? || r.NewVersion? || r.Reopen?
  }

  ghost function Apply(s: State, r: Request): Outcome {
    match r
    case Lifecycle(d, kind, key, reason, who, n) => EnqueueLifecycle(s, d, kind, key, reason, who, n)
    case Switch(a, target, ask, t, key, reason, who, n) => EnqueueSwitch(s, a, target, ask, t, key, reason, who, n)
    case Retry(id, key, who) => RetrySwitch(s, id, key, who)
    case Cancel(id, reason, now) => CancelOperation(s, id, reason, now)
    case SetRoute(a, d, rewrite, initial, locksFree) => ActivateRoute(s, a, d, rewrite, initial, locksFree)
    case Withdraw(a, expected, locksFree) => Unpublish(s, a, expected, locksFree)
    case NewEndpoint(name, api) => CreateEndpoint(s, name, api)
    case PatchEndpoint(a, enabled) => UpdateEndpoint(s, a, enabled)
    case NewManaged(name, v, node, container, gpus) => CreateManaged(s, name, v, node, container, gpus)
    case NewImported(name, v, upstream, node) => ImportDeployment(s, name, v, upstream, node)
    case Retire(d) => RetireDeployment(s, d)
    case Archive(v, jobs) => ArchiveVersion(s, v, jobs)
    case _ => Outcome(WorkerStep(s, r), Ok(Done))
  }

  ghost function WorkerStep(s: State, r: Request): State
    requires FromWorker(r)
  {
    match r
    case Claim(id) =>
      if id in s.operations then s.(operations := s.operations[id := ClaimOperation(s.operations[id])]) else s
    case WorkOn(id, status, steps, job, meta) =>
      if id in s.operations
      then s.(operations := s.operations[id := UpdateOperation(s.operations[id], status, steps, job, meta)]) else s
    case Observe(d, desired, runtime, health, gpus) =>
      if d in s.deployments
      then s.(deployments := s.deployments[d := s.deployments[d].(desired := desired, runtime := runtime, health := health, gpus := gpus)])
      else s
    case SetTraffic(a, traffic) =>
      if a in s.aliases && s.aliases[a].traffic != traffic
      then s.(aliases := s.aliases[a := s.aliases[a].(traffic := traffic)], routingVersion := s.routingVersion + 1) else s
    case MoveRoute(id, d) => if id in s.operations then CutOver(s, id, d) else s
    case NewVersion(modelType) => s.(versions := s.versions[s.nextId := Version(modelType, false)], nextId := s.nextId + 1)
    case Reopen(id, status) =>
      if id in s.operations then s.(operations := s.operations[id := ReopenOperation(s.operations[id], status)]) else s
  }

  /** What is assumed of the worker: it never revives a finished operation (reopening is a
      step of its own), keeps the timeouts and reason of the metadata, and cuts an alias over
      only for a switch it has claimed, to the source or target of that switch. A reopened
      operation must be in manual intervention, become active, and conflict with nothing. */
  ghost predicate Rely(s: State, r: Request) {
    match r
    case WorkOn(id, status, steps, job, meta) =>
      id in s.operations ==>
        && (Active(status) ==> Active(s.operations[id].status))
        && meta.timeouts == s.operations[id].meta.timeouts && meta.reason == s.operations[id].meta.reason
    case MoveRoute(id, d) =>
      && id in s.operations && Claimed(s.operations[id]) && s.operations[id].kind.OpSwitch? && d in Touches(s.operations[id])
    case Reopen(id, status) =>
      && id in s.operations && s.operations[id].status.ManualIntervention? && s.operations[id].kind.OpSwitch?
      && (status.Running? || status.RollingBack?)
      && SafeToReopen(s, id)
    case _ => true
  }

  predicate Claimed(o: Operation) {
    o.status.Running? || o.status.RollingBack?
  }

  /** No active operation shares a deployment or the alias, and source and target are not
      retired. The reconciler does not check this. */
  predicate SafeToReopen(s: State, id: Id)
    requires id in s.operations
  {
    var o := s.operations[id];
    && (forall d :: d in Touches(o) ==> !ActiveOperationOn(s.operations, d) && d in s.deployments && !s.deployments[d].retired)
    && (o.aliasId.Some? ==> !ActiveSwitchOn(s.operations, o.aliasId.value))
  }

  ghost function Run(s: State, rs: seq<Request>): State
    decreases |rs|
  {
    if rs == [] then s else Run(Apply(s, rs[0]).state, rs[1..])
  }

  /** Every worker step of the run meets the assumption in the state it happens in. */
  ghost predicate Legal(s: State, rs: seq<Request>)
    decreases |rs|
  {
    rs == [] || (Rely(s, rs[0]) && Legal(Apply(s, rs[0]).state, rs[1..]))
  }
}
