/** The management services as they run: methods that check, write rows one after another
    and bump the version. Each is proved to have exactly the effect of its step function, so
    that runs of steps are runs of these methods, and to mean what the laws say of the tables
    before and after. */
module ControlPlaneService {
  import opened Prelude
  import opened ControlPlane
  import opened ControlPlaneInvariants
  import Cancelling = ControlPlaneCancel
  import Enqueue = ControlPlaneEnqueue
  import Names = ControlPlaneNames
  import Routing = ControlPlaneRouting

  class Database {
    var versions: map<Id, Version>
    var deployments: map<Id, Deployment>
    var aliases: map<Id, Alias>
    var routes: map<Id, Route>
    var operations: map<Id, Operation>
    var keyIndex: map<Key, Id>
    var routingVersion: nat
    var nextId: Id

    ghost function Contents(): State
      reads this
    {
      State(versions, deployments, aliases, routes, operations, keyIndex, routingVersion, nextId)
    }

    ghost predicate Valid()
      reads this
    {
      Inv(Contents())
    }

    constructor ()
      ensures Valid() && Contents() == EMPTY_STATE
    {
      versions, deployments, aliases, routes, operations, keyIndex, routingVersion, nextId :=
        map[], map[], map[], map[], map[], map[], 0, 0;
      new;
      EmptyIsGood();
    }

    // ------------------------------------------------------------ repositories

    /** `get_active_route`. At most one row qualifies, so the query has one answer. */
    method GetActiveRoute(a: Id) returns (r: Option<Id>)
      requires Valid()
      ensures r == ActiveRoute(routes, a)
    {
      Routing.OneActiveOf(Contents(), a);
      hide Inv;
      if exists i :: i in routes && IsActiveRoute(routes, i, a) {
        var i :| i in routes && IsActiveRoute(routes, i, a);
        r := Some(i);
      } else {
        r := None;
        assert forall i :: !IsActiveRoute(routes, i, a);
      }
    }

    method DeactivateActiveRoutes(a: Id)
      modifies this`routes
      ensures routes == Deactivated(old(routes), a)
    {
      routes := map i | i in routes :: if routes[i].aliasId == a then routes[i].(active := false) else routes[i];
    }

    method BumpRoutingVersion() returns (v: nat)
      modifies this`routingVersion
      ensures v == routingVersion == old(routingVersion) + 1
    {
      routingVersion := routingVersion + 1;
      v := routingVersion;
    }

    /** `add`, the loop over the step codes and `add_job`: the operation row first, then its
        steps one by one, then its job. */
    method InsertOperation(o: Operation, codes: seq<string>, maxAttempts: int) returns (id: Id)
      requires o.steps == PendingSteps(codes) && o.job == Some(Job(JobQueued, AtLeastOne(maxAttempts)))
      modifies this`operations, this`keyIndex, this`nextId
      ensures id == old(nextId) && Contents() == AddOperation(old(Contents()), o)
    {
      id := nextId;
      nextId := nextId + 1;
      operations := operations[id := o.(steps := [], job := None)];
      if o.key.Some? {
        keyIndex := keyIndex[o.key.value := id];
      }
      var n := 0;
      while n < |codes|
        modifies this`operations
        invariant 0 <= n <= |codes|
        invariant operations == old(operations)[id := o.(steps := PendingSteps(codes)[..n], job := None)]
      {
        var row := operations[id];
        operations := operations[id := row.(steps := row.steps + [Step(n + 1, codes[n], StepPending, None)])];
        n := n + 1;
        assert PendingSteps(codes)[..n] == PendingSteps(codes)[..n - 1] + [PendingSteps(codes)[n - 1]];
      }
      assert PendingSteps(codes)[..n] == PendingSteps(codes);
      operations := operations[id := operations[id].(job := Some(Job(JobQueued, if maxAttempts < 1 then 1 else maxAttempts)))];
      assert operations == old(operations)[id := o];
    }

    // -------------------------------------------------------------- operations

    method EnqueueLifecycle(d: Id, kind: OpKind, key: Option<Key>, reason: Option<string>, requestedBy: Option<string>,
                            maxAttempts: int) returns (reply: Result<Reply, Error>)
      requires Valid()
      modifies this
      ensures Outcome(Contents(), reply) == ControlPlane.EnqueueLifecycle(old(Contents()), d, kind, key, reason, requestedBy, maxAttempts)
      ensures Enqueue.LifecycleMeans(old(Contents()), Outcome(Contents(), reply), d, kind, key, reason, requestedBy, maxAttempts)
      ensures Valid()
    {
      hide Enqueue.LifecycleMeans, Inv;
      Enqueue.LifecycleEnqueued(Contents(), d, kind, key, reason, requestedBy, maxAttempts);
      LifecycleKeeps(Contents(), Lifecycle(d, kind, key, reason, requestedBy, maxAttempts));
      assert Inv(ControlPlane.EnqueueLifecycle(Contents(), d, kind, key, reason, requestedBy, maxAttempts).state);
      hide Apply, ActiveOperationOn, LifecycleMeta, LifecycleSteps, RequireSafeForRemove, DesiredOnEnqueue;
      if kind.OpSwitch? {
        return Err(Invalid);
      }
      if key.Some? && key.value in keyIndex {
        return Ok(OperationReply(keyIndex[key.value]));
      }
      var e := RequireManaged(Snapshot(), d);
      if e.Some? {
        return Err(e.value);
      }
      if ActiveOperationOn(operations, d) {
        return Err(Conflict(Plain));
      }
      if kind.OpDelete? {
        e := RequireSafeForRemove(Snapshot(), d);
        if e.Some? {
          return Err(e.value);
        }
      }
      deployments := deployments[d := deployments[d].(desired := DesiredOnEnqueue(kind))];
      var id := InsertOperation(NewOperation(kind, None, None, None, Some(d), None, key, reason, requestedBy, LifecycleMeta(reason),
                                             LifecycleSteps(kind), maxAttempts),
                                LifecycleSteps(kind), maxAttempts);
      reply := Ok(OperationReply(id));
    }

    /** The tables as one value, for the read-only checks. */
    function Snapshot(): (s: State)
      reads this
      ensures s == Contents()
    {
      State(versions, deployments, aliases, routes, operations, keyIndex, routingVersion, nextId)
    }

    /** `_validate_cold_switch_baseline`. */
    method ValidateBaseline(a: Id, target: Id, expectedSource: Option<Id>, conflictOnUnsafe: bool) returns (r: Result<Id, Error>)
      requires Valid()
      ensures r == Baseline(Contents(), a, target, expectedSource, conflictOnUnsafe)
      ensures r.Ok? ==> r.value in deployments && target in deployments && a in aliases
    {
      hide Inv;
      if a !in aliases {
        return Err(NotFound);
      }
      var row := aliases[a];
      if !row.enabled {
        return Err(Invalid);
      }
      if !row.traffic.Serving? {
        return Err(if conflictOnUnsafe then Conflict(InvalidOperationState) else Invalid);
      }
      var route := GetActiveRoute(a);
      if route == None {
        return Err(Invalid);
      }
      var source := routes[route.value].deployment;
      if expectedSource.Some? && expectedSource.value != source {
        return Err(Conflict(InvalidOperationState));
      }
      if source == target || source !in deployments {
        return Err(Invalid);
      }
      if target !in deployments {
        return Err(NotFound);
      }
      var from, to := deployments[source], deployments[target];
      if to.retired || !from.managed || !to.managed || !from.runtime.RtRunning? || !from.health.HsHealthy? {
        return Err(Invalid);
      }
      if from.node == None || to.node == None || from.node != to.node || to.gpus == [] {
        return Err(Invalid);
      }
      if to.version !in versions || !Compatible(row.api, versions[to.version].modelType) {
        return Err(Invalid);
      }
      r := Ok(source);
    }

    method CreateSwitchOperation(a: Id, source: Id, target: Id, strategy: Strategy, reason: Option<string>,
                                 requestedBy: Option<string>, key: Option<Key>, meta: Meta, maxAttempts: int, retryOf: Option<Id>)
      returns (id: Id)
      modifies this`operations, this`keyIndex, this`nextId
      ensures id == old(nextId)
      ensures Contents() == CreateSwitch(old(Contents()), a, source, target, strategy, reason, requestedBy, key, meta, maxAttempts, retryOf)
    {
      hide SwitchSteps;
      var steps := SwitchSteps(strategy);
      id := InsertOperation(NewOperation(OpSwitch, Some(strategy), Some(a), Some(source), Some(target), retryOf, key, reason,
                                         requestedBy, meta, steps, maxAttempts),
                            steps, maxAttempts);
    }

    method EnqueueSwitch(a: Id, target: Id, ask: RequestedStrategy, t: SwitchTimeouts, key: Option<Key>,
                         reason: Option<string>, requestedBy: Option<string>, maxAttempts: int) returns (reply: Result<Reply, Error>)
      requires Valid()
      modifies this
      ensures Outcome(Contents(), reply) == ControlPlane.EnqueueSwitch(old(Contents()), a, target, ask, t, key, reason, requestedBy, maxAttempts)
      ensures Enqueue.SwitchMeans(old(Contents()), Outcome(Contents(), reply), a, target, ask, t, key, reason, requestedBy, maxAttempts)
      ensures Valid()
    {
      hide Enqueue.SwitchMeans, Inv;
      Enqueue.SwitchEnqueued(Contents(), a, target, ask, t, key, reason, requestedBy, maxAttempts);
      SwitchKeeps(Contents(), Switch(a, target, ask, t, key, reason, requestedBy, maxAttempts));
      assert Inv(ControlPlane.EnqueueSwitch(Contents(), a, target, ask, t, key, reason, requestedBy, maxAttempts).state);
      hide Apply, Baseline, ActiveOperationOn, ActiveSwitchOn, SwitchMeta, CreateSwitch, TimeoutsPositive;
      if key.Some? && key.value in keyIndex {
        return Ok(OperationReply(keyIndex[key.value]));
      }
      if !ask.AskCold? && !ask.AskHot? {
        return Err(Invalid);
      }
      if !TimeoutsPositive(t) {
        return Err(Invalid);
      }
      var base := ValidateBaseline(a, target, None, false);
      if base.Err? {
        return Err(base.error);
      }
      if ActiveSwitchOn(operations, a) {
        return Err(Conflict(SwitchAlreadyInProgress));
      }
      if ActiveOperationOn(operations, base.value) || ActiveOperationOn(operations, target) {
        return Err(Conflict(EndpointBusy));
      }
      var strategy := if ask.AskHot? then Hot else Cold;
      var id := CreateSwitchOperation(a, base.value, target, strategy, reason, requestedBy, key, SwitchMeta(strategy, t, reason),
                                      maxAttempts, None);
      reply := Ok(OperationReply(id));
    }

    /** The checks on the original operation of a retry. */
    method CheckOriginal(original: Id) returns (e: Option<Error>)
      ensures e == RetryOriginalError(Contents(), original)
      ensures e == None ==>
                original in operations && ColdOrHotSwitch(operations[original])
                && operations[original].aliasId.Some? && operations[original].source.Some? && operations[original].target.Some?
    {
      hide ActiveRetryOf;
      if original !in operations {
        return Some(NotFound);
      }
      var o := operations[original];
      if !ColdOrHotSwitch(o) {
        return Some(Conflict(InvalidOperationState));
      }
      if !o.status.Failed? && !o.status.RolledBack? {
        return Some(Conflict(InvalidOperationState));
      }
      if o.status.Failed? && o.meta.destructive {
        return Some(Conflict(InvalidOperationState));
      }
      if ActiveRetryOf(operations, original) {
        return Some(Conflict(InvalidOperationState));
      }
      if o.aliasId == None || o.source == None || o.target == None {
        return Some(Conflict(InvalidOperationState));
      }
      return None;
    }

    method RetrySwitch(original: Id, key: Option<Key>, requestedBy: Option<string>) returns (reply: Result<Reply, Error>)
      requires Valid()
      modifies this
      ensures Outcome(Contents(), reply) == ControlPlane.RetrySwitch(old(Contents()), original, key, requestedBy)
      ensures Enqueue.RetryMeans(old(Contents()), Outcome(Contents(), reply), original, key, requestedBy)
      ensures Valid()
    {
      hide Enqueue.RetryMeans, Inv;
      Enqueue.RetryEnqueued(Contents(), original, key, requestedBy);
      RetryKeeps(Contents(), Retry(original, key, requestedBy));
      assert Inv(ControlPlane.RetrySwitch(Contents(), original, key, requestedBy).state);
      hide Apply, Baseline, ActiveOperationOn, ActiveSwitchOn, RetryMeta, CreateSwitch, RetryAttempts, Truthy, RetryOriginalError,
        RetryBaselineError;
      if key.Some? && key.value in keyIndex {
        var existing := keyIndex[key.value];
        if existing in operations && operations[existing].retryOf == Some(original) {
          return Ok(OperationReply(existing));
        }
        return Err(Conflict(IdempotencyKeyConflict));
      }
      var e := CheckOriginal(original);
      if e.Some? {
        return Err(e.value);
      }
      var o := operations[original];
      var a, source, target, strategy := o.aliasId.value, o.source.value, o.target.value, o.strategy.value;
      if ActiveSwitchOn(operations, a) {
        return Err(Conflict(InvalidOperationState));
      }
      BaselineNamesSource(Contents(), a, target, source);
      var base := ValidateBaseline(a, target, Some(source), true);
      if base.Err? {
        return Err(RetryBaselineError(strategy.Hot?, base.error));
      }
      if strategy.Hot? && (!deployments[source].desired.WantRunning? || !deployments[target].desired.WantRunning?) {
        return Err(Conflict(InvalidOperationState));
      }
      if ActiveOperationOn(operations, source) || ActiveOperationOn(operations, target) {
        return Err(Conflict(InvalidOperationState));
      }
      var id := CreateSwitchOperation(a, source, target, strategy, o.reason,
                                      if Truthy(requestedBy).Some? then requestedBy else o.requestedBy,
                                      key, RetryMeta(o.meta, strategy, o.reason), RetryAttempts(o.job), Some(original));
      reply := Ok(OperationReply(id));
    }

    method CancelOperation(id: Id, reason: Option<string>, now: int) returns (reply: Result<Reply, Error>)
      requires Valid()
      modifies this
      ensures Outcome(Contents(), reply) == ControlPlane.CancelOperation(old(Contents()), id, reason, now)
      ensures Cancelling.CancelMeans(old(Contents()), Outcome(Contents(), reply), id, now)
      ensures Valid()
    {
      hide Cancelling.CancelMeans, Inv;
      Cancelling.CancelReplies(Contents(), id, reason, now);
      CancelKeeps(Contents(), Cancel(id, reason, now));
      assert Inv(ControlPlane.CancelOperation(Contents(), id, reason, now).state);
      hide Apply, ApplyCancel;
      if id !in operations {
        return Err(NotFound);
      }
      if !ColdOrHotSwitch(operations[id]) {
        return Err(Conflict(InvalidOperationState));
      }
      var row, decision := ApplyCancelDecision(operations[id], reason, now);
      if decision.AlreadyTerminal? {
        return Err(Conflict(InvalidOperationState));
      }
      operations := operations[id := row];
      reply := Ok(OperationReply(id));
    }

    // ------------------------------------------------------------------ routes

    method SetRoute(a: Id, d: Id, rewrite: Option<string>, requireNoActive: bool, locksFree: bool) returns (reply: Result<Reply, Error>)
      requires Valid()
      modifies this
      ensures Outcome(Contents(), reply) == ActivateRoute(old(Contents()), a, d, rewrite, requireNoActive, locksFree)
      ensures Routing.RouteMeans(old(Contents()), Outcome(Contents(), reply), a, d, rewrite, requireNoActive, locksFree)
      ensures Valid()
    {
      hide Routing.RouteMeans, Inv;
      Routing.SetRouteReplaces(Contents(), a, d, rewrite, requireNoActive, locksFree);
      SetRouteKeeps(Contents(), ControlPlane.SetRoute(a, d, rewrite, requireNoActive, locksFree));
      assert Inv(ActivateRoute(Contents(), a, d, rewrite, requireNoActive, locksFree).state);
      hide Apply, Deactivated, RequestedRewrite, RouteTargetError;
      if !locksFree {
        return Err(Conflict(RouteMutationBusy));
      }
      var e := RouteTargetError(Snapshot(), a, d);
      if e.Some? {
        return Err(e.value);
      }
      var existing := GetActiveRoute(a);
      var requested := RequestedRewrite(rewrite);
      if requireNoActive && existing.Some? {
        var row := routes[existing.value];
        if row.deployment == d && RequestedRewrite(row.rewrite) == requested {
          return Ok(RouteReply(existing.value, routingVersion, true));
        }
        return Err(Conflict(ActiveRouteExists));
      }
      if !requireNoActive {
        DeactivateActiveRoutes(a);
      }
      var id := nextId;
      nextId := nextId + 1;
      routes := routes[id := Route(a, d, true, requested)];
      var v := BumpRoutingVersion();
      reply := Ok(RouteReply(id, v, false));
    }

    method Unpublish(a: Id, expected: Option<Id>, locksFree: bool) returns (reply: Result<Reply, Error>)
      requires Valid()
      modifies this
      ensures Outcome(Contents(), reply) == ControlPlane.Unpublish(old(Contents()), a, expected, locksFree)
      ensures Routing.WithdrawMeans(old(Contents()), Outcome(Contents(), reply), a, expected, locksFree)
      ensures Valid()
    {
      hide Routing.WithdrawMeans, Inv;
      Routing.WithdrawnIff(Contents(), a, expected, locksFree);
      WithdrawKeeps(Contents(), Withdraw(a, expected, locksFree));
      assert Inv(ControlPlane.Unpublish(Contents(), a, expected, locksFree).state);
      hide Apply, Deactivated;
      if !locksFree {
        return Err(Conflict(RouteMutationBusy));
      }
      if a !in aliases {
        return Err(NotFound);
      }
      var existing := GetActiveRoute(a);
      if existing == None {
        return Ok(UnpublishReply(None, routingVersion, false));
      }
      if expected == None {
        return Err(Invalid);
      }
      if routes[existing.value].deployment != expected.value {
        return Err(Conflict(RouteTargetChanged));
      }
      DeactivateActiveRoutes(a);
      var v := BumpRoutingVersion();
      reply := Ok(UnpublishReply(existing, v, true));
    }

    method CreateEndpoint(name: string, api: ApiType) returns (reply: Result<Reply, Error>)
      requires Valid()
      modifies this
      ensures Outcome(Contents(), reply) == ControlPlane.CreateEndpoint(old(Contents()), name, api)
      ensures Names.EndpointMeans(old(Contents()), Outcome(Contents(), reply), name, api)
      ensures Valid()
    {
      hide Names.EndpointMeans, Inv;
      Names.EndpointCreatedIff(Contents(), name, api);
      EndpointKeeps(Contents(), NewEndpoint(name, api));
      assert Inv(ControlPlane.CreateEndpoint(Contents(), name, api).state);
      hide Apply;
      if AliasTaken(aliases, name) {
        return Err(Conflict(Plain));
      }
      var id := nextId;
      nextId := nextId + 1;
      aliases := aliases[id := Alias(name, api, true, Serving)];
      var _ := BumpRoutingVersion();
      reply := Ok(RowReply(id));
    }

    method UpdateEndpoint(a: Id, enabled: Option<bool>) returns (reply: Result<Reply, Error>)
      requires Valid()
      modifies this
      ensures Outcome(Contents(), reply) == ControlPlane.UpdateEndpoint(old(Contents()), a, enabled)
      ensures Names.PatchMeans(old(Contents()), Outcome(Contents(), reply), a, enabled)
      ensures Valid()
    {
      hide Names.PatchMeans, Inv;
      Names.EndpointUpdatedIff(Contents(), a, enabled);
      EndpointKeeps(Contents(), PatchEndpoint(a, enabled));
      assert Inv(ControlPlane.UpdateEndpoint(Contents(), a, enabled).state);
      hide Apply;
      if a !in aliases {
        return Err(NotFound);
      }
      var changed := false;
      if enabled.Some? && aliases[a].enabled != enabled.value {
        aliases := aliases[a := aliases[a].(enabled := enabled.value)];
        changed := true;
      }
      if changed {
        var _ := BumpRoutingVersion();
      }
      reply := Ok(RowReply(a));
    }

    // ------------------------------------------------ deployments and versions

    method RetireDeployment(d: Id) returns (reply: Result<Reply, Error>)
      requires Valid()
      modifies this
      ensures Outcome(Contents(), reply) == ControlPlane.RetireDeployment(old(Contents()), d)
      ensures Enqueue.RetireMeans(old(Contents()), Outcome(Contents(), reply), d)
      ensures Valid()
    {
      hide Enqueue.RetireMeans, Inv;
      Enqueue.RetireIff(Contents(), d);
      RetireRequestKeeps(Contents(), Retire(d));
      assert Inv(ControlPlane.RetireDeployment(Contents(), d).state);
      hide Apply, PublicationError, ActiveOperationOn;
      if d !in deployments {
        return Err(NotFound);
      }
      if deployments[d].retired {
        return Ok(RowReply(d));
      }
      var publication := PublicationError(routes, d);
      if publication.Some? {
        return Err(publication.value);
      }
      if deployments[d].managed {
        if deployments[d].runtime.RtRunning? || deployments[d].health.HsStarting? {
          return Err(Conflict(RuntimeStillRunning));
        }
      }
      if ActiveOperationOn(operations, d) {
        return Err(Conflict(ActiveLifecycleOperation));
      }
      deployments := deployments[d := deployments[d].(retired := true, desired := WantRemoved)];
      reply := Ok(RowReply(d));
    }

    /** The deployments are looked up and then the first active download jobs one by one, in the
        order they are listed; a job is given by the version its artifact belongs to. */
    method ArchiveVersion(v: Id, jobs: seq<Option<Id>>) returns (reply: Result<Reply, Error>)
      requires Valid()
      modifies this
      ensures Outcome(Contents(), reply) == ControlPlane.ArchiveVersion(old(Contents()), v, jobs)
      ensures Enqueue.ArchiveMeans(old(Contents()), Outcome(Contents(), reply), v, jobs)
      ensures Valid()
    {
      hide Enqueue.ArchiveMeans, Inv;
      Enqueue.ArchiveIff(Contents(), v, jobs);
      ArchiveRequestKeeps(Contents(), Archive(v, jobs));
      assert Inv(ControlPlane.ArchiveVersion(Contents(), v, jobs).state);
      hide Apply;
      if v !in versions {
        return Err(NotFound);
      }
      if versions[v].archived {
        return Ok(RowReply(v));
      }
      var live := set d | d in deployments && deployments[d].version == v && !deployments[d].retired;
      if live != {} {
        assert InUse(deployments, v) by {
          var d :| d in live;
        }
        return Err(Conflict(ActiveDeploymentExists));
      }
      assert forall d :: d in deployments && deployments[d].version == v && !deployments[d].retired ==> d in live;
      var n := 0;
      while n < |jobs| && n < JOB_LIMIT
        invariant 0 <= n <= |jobs| && n <= JOB_LIMIT
        invariant forall i :: 0 <= i < n ==> jobs[i] != Some(v)
      {
        if jobs[n] == Some(v) {
          return Err(Conflict(ActiveDownloadJob));
        }
        n := n + 1;
      }
      versions := versions[v := versions[v].(archived := true)];
      reply := Ok(RowReply(v));
    }

    method CreateManaged(name: string, v: Id, node: Id, container: string, gpus: seq<Id>) returns (reply: Result<Reply, Error>)
      requires Valid()
      modifies this
      ensures Outcome(Contents(), reply) == ControlPlane.CreateManaged(old(Contents()), name, v, node, container, gpus)
      ensures Names.ManagedMeans(old(Contents()), Outcome(Contents(), reply), name, v, node, container, gpus)
      ensures Valid()
    {
      hide Names.ManagedMeans, Inv, Strip, NameTaken, ContainerTaken, RequireVersion, Apply;
      Names.ManagedCreated(Contents(), name, v, node, container, gpus);
      ManagedKeeps(Contents(), name, v, node, container, gpus);
      var n, c := Strip(name), Strip(container);
      if n == "" || c == "" {
        return Err(Invalid);
      }
      var e := RequireVersion(Snapshot(), v);
      if e.Some? {
        return Err(e.value);
      }
      if NameTaken(Snapshot(), n) || ContainerTaken(Snapshot(), c) {
        return Err(Conflict(Plain));
      }
      var id := nextId;
      nextId := nextId + 1;
      deployments := deployments[id := Deployment(n, v, Some(node), true, WantStopped, RtCreated, HsUnknown, Some(c), gpus, false)];
      reply := Ok(RowReply(id));
    }

    method ImportDeployment(name: string, v: Id, upstream: string, node: Option<Id>) returns (reply: Result<Reply, Error>)
      requires Valid()
      modifies this
      ensures Outcome(Contents(), reply) == ControlPlane.ImportDeployment(old(Contents()), name, v, upstream, node)
      ensures Names.ImportedMeans(old(Contents()), Outcome(Contents(), reply), name, v, upstream, node)
      ensures Valid()
    {
      hide Names.ImportedMeans, Inv, Strip, NameTaken, RequireVersion, Apply;
      Names.ImportedCreated(Contents(), name, v, upstream, node);
      ImportedKeeps(Contents(), name, v, upstream, node);
      var n, address := Strip(name), Strip(upstream);
      if n == "" {
        return Err(Invalid);
      }
      if address == "" {
        return Err(Invalid);
      }
      var e := RequireVersion(Snapshot(), v);
      if e.Some? {
        return Err(e.value);
      }
      if NameTaken(Snapshot(), n) {
        return Err(Conflict(Plain));
      }
      var id := nextId;
      nextId := nextId + 1;
      deployments := deployments[id := Deployment(n, v, node, false, WantRunning, RtRunning, HsUnknown, None, [], false)];
      reply := Ok(RowReply(id));
    }
  }

  /** The loop of `finalize_operation_cancelled` over the steps. */
  method SkipOpenSteps(steps: seq<Step>, now: int) returns (r: seq<Step>)
    ensures r == SkipAll(steps, now)
  {
    r := steps;
    var n := 0;
    while n < |r|
      invariant 0 <= n <= |r| == |steps|
      invariant forall i :: 0 <= i < n ==> r[i] == SkipOpen(steps[i], now)
      invariant forall i :: n <= i < |r| ==> r[i] == steps[i]
    {
      if OpenStep(r[n].status) {
        r := r[n := r[n].(status := StepSkipped, finishedAt := Some(now))];
      }
      n := n + 1;
    }
  }

  /** `finalize_operation_cancelled` on the locked row, its steps and its job. */
  method FinalizeOperationCancelled(o: Operation, now: int) returns (row: Operation)
    ensures row == FinalizeCancelled(o, now)
  {
    row := o;
    if row.cancelRequestedAt == None {
      row := row.(cancelRequestedAt := Some(now));
    }
    if !row.status.Cancelled? {
      row := row.(status := Cancelled, finishedAt := Some(now));
    }
    var steps := SkipOpenSteps(row.steps, now);
    row := row.(steps := steps);
    if row.job.Some? && !row.job.value.status.JobFailed? && !row.job.value.status.JobDone? {
      row := row.(job := Some(row.job.value.(status := JobFailed)));
    }
  }

  /** `apply_cancel_decision` on the locked row. */
  method ApplyCancelDecision(o: Operation, reason: Option<string>, now: int) returns (row: Operation, decision: CancelDecision)
    ensures (row, decision) == ApplyCancel(o, reason, now)
  {
    row := o;
    if o.status.Cancelled? || (o.status.RolledBack? && o.cancelRequestedAt.Some?) {
      return PatchReason(row, reason), Idempotent;
    }
    if !Active(o.status) {
      return row, AlreadyTerminal;
    }
    var stillQueued := StillQueued(o);
    if row.cancelRequestedAt == None {
      row := row.(cancelRequestedAt := Some(now));
    }
    row := PatchReason(row, reason);
    if stillQueued {
      row := FinalizeOperationCancelled(row, now);
      decision := CancelDone;
    } else {
      decision := IntentOnly;
    }
  }

  lemma ImportedKeeps(s: State, name: string, v: Id, upstream: string, node: Option<Id>)
    requires Inv(s)
    ensures Inv(ImportDeployment(s, name, v, upstream, node).state)
  {
    hide Inv, Strip, NameTaken, RequireVersion;
    NewDeploymentKeeps(s, NewImported(name, v, upstream, node));
  }

  lemma ManagedKeeps(s: State, name: string, v: Id, node: Id, container: string, gpus: seq<Id>)
    requires Inv(s)
    ensures Inv(CreateManaged(s, name, v, node, container, gpus).state)
  {
    hide Inv, Strip, NameTaken, ContainerTaken, RequireVersion;
    NewDeploymentKeeps(s, NewManaged(name, v, node, container, gpus));
  }

  /** A baseline for an expected source that passes is about that source. */
  lemma BaselineNamesSource(s: State, a: Id, target: Id, source: Id)
    ensures Baseline(s, a, target, Some(source), true).Ok? ==>
              Baseline(s, a, target, Some(source), true).value == source && source in s.deployments && target in s.deployments
  {
  }
}
