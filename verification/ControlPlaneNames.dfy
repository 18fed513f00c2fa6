/** Names over whole runs: no two deployments or aliases share a name, and no two deployments
    that are not retired share a container. */
module ControlPlaneNames {
  import opened Prelude
  import opened ControlPlane
  import opened ControlPlaneInvariants
  import opened ControlPlaneEnqueue
  import opened ControlPlaneRouting

  ghost predicate DeploymentNames(deployments: map<Id, Deployment>) {
    && (forall i, j :: i in deployments && j in deployments && deployments[i].name == deployments[j].name ==> i == j)
    && (forall i, j :: i in deployments && j in deployments && SameContainer(deployments[i], deployments[j]) ==> i == j)
  }

  predicate SameContainer(a: Deployment, b: Deployment) {
    !a.retired && !b.retired && a.container.Some? && a.container == b.container
  }

  ghost predicate AliasNames(aliases: map<Id, Alias>) {
    forall i, j :: i in aliases && j in aliases && aliases[i].name == aliases[j].name ==> i == j
  }

  ghost predicate NamesUnique(s: State) {
    DeploymentNames(s.deployments) && AliasNames(s.aliases)
  }

  // ---------------------------------------------------------------- the tables

  lemma PutDeploymentNames(deployments: map<Id, Deployment>, d: Id, row: Deployment)
    requires DeploymentNames(deployments) && d in deployments
    requires row.name == deployments[d].name && row.container == deployments[d].container && (deployments[d].retired ==> row.retired)
    ensures DeploymentNames(deployments[d := row])
  {
    var t := deployments[d := row];
    forall i, j | i in t && j in t && SameContainer(t[i], t[j]) ensures i == j {
      assert SameContainer(deployments[i], deployments[j]);
    }
  }

  lemma AddDeploymentNames(s: State, row: Deployment)
    requires DeploymentNames(s.deployments) && !NameTaken(s, row.name)
    requires row.container.Some? ==> !ContainerTaken(s, row.container.value)
    ensures DeploymentNames(s.deployments[s.nextId := row])
  {
    var t := s.deployments[s.nextId := row];
    forall i, j | i in t && j in t && SameContainer(t[i], t[j]) ensures i == j {
      if i != s.nextId && j != s.nextId {
        assert SameContainer(s.deployments[i], s.deployments[j]);
      }
    }
  }

  lemma PutAliasNames(aliases: map<Id, Alias>, a: Id, row: Alias)
    requires AliasNames(aliases) && a in aliases && row.name == aliases[a].name
    ensures AliasNames(aliases[a := row])
  {
  }

  lemma AddAliasNames(aliases: map<Id, Alias>, a: Id, row: Alias)
    requires AliasNames(aliases) && !AliasTaken(aliases, row.name)
    ensures AliasNames(aliases[a := row])
  {
  }

  // ------------------------------------------------------------------ the steps

  predicate WritesDeployments(r: Request) {
    r.Lifecycle? || r.NewManaged? || r.NewImported? || r.Retire? || r.Observe?
  }

  lemma OthersLeaveDeployments(s: State, r: Request)
    requires !WritesDeployments(r)
    ensures Apply(s, r).state.deployments == s.deployments
  {
    match r
    case Retry(id, key, who) =>
      hide RetrySwitch, RetryOperation;
      if RetrySwitch(s, id, key, who).state != s { RetryInserts(s, id, key, who); }
    case Switch(a, target, ask, t, key, reason, who, n) =>
      hide EnqueueSwitch, SwitchOperation;
      if EnqueueSwitch(s, a, target, ask, t, key, reason, who, n).state != s { SwitchInserts(s, a, target, ask, t, key, reason, who, n); }
    case Cancel(_, _, _) => hide ApplyCancel;
    case SetRoute(_, _, _, _, _) => hide ActiveRoute, Deactivated, RouteTargetError, RequestedRewrite;
    case Withdraw(_, _, _) => hide ActiveRoute, Deactivated;
    case _ => hide *; PlainOnesLeaveDeployments(s, r);
  }

  lemma PlainOnesLeaveDeployments(s: State, r: Request)
    requires !WritesDeployments(r) && !r.Retry? && !r.Switch? && !r.Cancel? && !r.SetRoute? && !r.Withdraw?
    ensures Apply(s, r).state.deployments == s.deployments
  {
    hide Deactivated, AliasTaken, InUse, ReopenOperation, ClaimOperation, UpdateOperation;
  }

  lemma DeploymentsStayNamed(s: State, r: Request)
    requires DeploymentNames(s.deployments)
    ensures DeploymentNames(Apply(s, r).state.deployments)
  {
    hide DeploymentNames;
    match r
    case Lifecycle(d, kind, key, reason, who, n) =>
      hide EnqueueLifecycle, LifecycleOperation;
      if EnqueueLifecycle(s, d, kind, key, reason, who, n).state != s {
        LifecycleInserts(s, d, kind, key, reason, who, n);
        PutDeploymentNames(s.deployments, d, s.deployments[d].(desired := DesiredOnEnqueue(kind)));
      }
    case NewManaged(name, v, node, container, gpus) => hide Apply; ManagedStayNamed(s, name, v, node, container, gpus);
    case NewImported(name, v, upstream, node) => hide Apply; ImportedStayNamed(s, name, v, upstream, node);
    case Retire(d) =>
      hide RetireError;
      if d in s.deployments {
        PutDeploymentNames(s.deployments, d, s.deployments[d].(retired := true, desired := WantRemoved));
      }
    case Observe(d, desired, runtime, health, gpus) =>
      if d in s.deployments {
        PutDeploymentNames(s.deployments, d, s.deployments[d].(desired := desired, runtime := runtime, health := health, gpus := gpus));
      }
    case _ => hide *; OthersLeaveDeployments(s, r);
  }

  lemma ManagedStayNamed(s: State, name: string, v: Id, node: Id, container: string, gpus: seq<Id>)
    requires DeploymentNames(s.deployments)
    ensures DeploymentNames(Apply(s, NewManaged(name, v, node, container, gpus)).state.deployments)
  {
    hide Strip, NameTaken, ContainerTaken, RequireVersion, DeploymentNames;
    if CreateManaged(s, name, v, node, container, gpus).state != s {
      AddDeploymentNames(s, Deployment(Strip(name), v, Some(node), true, WantStopped, RtCreated, HsUnknown, Some(Strip(container)), gpus, false));
    }
  }

  lemma ImportedStayNamed(s: State, name: string, v: Id, upstream: string, node: Option<Id>)
    requires DeploymentNames(s.deployments)
    ensures DeploymentNames(Apply(s, NewImported(name, v, upstream, node)).state.deployments)
  {
    hide Strip, NameTaken, RequireVersion, DeploymentNames;
    if ImportDeployment(s, name, v, upstream, node).state != s {
      AddDeploymentNames(s, Deployment(Strip(name), v, node, false, WantRunning, RtRunning, HsUnknown, None, [], false));
    }
  }

  lemma AliasesStayNamed(s: State, r: Request)
    requires AliasNames(s.aliases)
    ensures AliasNames(Apply(s, r).state.aliases)
  {
    hide AliasNames;
    match r
    case NewEndpoint(name, api) =>
      hide AliasTaken;
      if !AliasTaken(s.aliases, name) { AddAliasNames(s.aliases, s.nextId, Alias(name, api, true, Serving)); }
    case PatchEndpoint(a, enabled) =>
      if a in s.aliases && enabled.Some? { PutAliasNames(s.aliases, a, s.aliases[a].(enabled := enabled.value)); }
    case SetTraffic(a, traffic) =>
      if a in s.aliases { PutAliasNames(s.aliases, a, s.aliases[a].(traffic := traffic)); }
    case SetRoute(_, _, _, _, _) => hide ActiveRoute, Deactivated, RouteTargetError, RequestedRewrite;
    case Withdraw(_, _, _) => hide ActiveRoute, Deactivated;
    case MoveRoute(_, _) => hide Deactivated, CutOverPlan, ActiveRoute;
    case _ => hide Apply; OthersLeaveTable(s, r);
  }

  /** Over any run at all, whatever the worker does: names stay unique, and no container is
      claimed by two live deployments. */
  lemma {:induction false} RunKeepsNames(s: State, rs: seq<Request>)
    requires NamesUnique(s)
    ensures NamesUnique(Run(s, rs))
    decreases |rs|
  {
    hide Apply, DeploymentNames, AliasNames;
    if rs != [] {
      DeploymentsStayNamed(s, rs[0]);
      AliasesStayNamed(s, rs[0]);
      RunKeepsNames(Apply(s, rs[0]).state, rs[1..]);
    }
  }

  // -------------------------------------------------------------- new rows

  /** A new deployment may have a name when it is not blank and no deployment has it, and run a
      version when that is known and not archived. */
  ghost predicate MayBeCalled(s: State, name: string) {
    Strip(name) != "" && forall d :: d in s.deployments ==> s.deployments[d].name != Strip(name)
  }

  predicate MayRun(s: State, v: Id) {
    v in s.versions && !s.versions[v].archived
  }

  ghost predicate MayHaveContainer(s: State, container: string) {
    && Strip(container) != ""
    && forall d :: d in s.deployments && !s.deployments[d].retired ==> s.deployments[d].container != Some(Strip(container))
  }

  /** One new deployment, without route and without operation; nothing else changed. */
  ghost predicate OneMore(s: State, after: Outcome) {
    && after.reply == Ok(RowReply(s.nextId)) && s.nextId !in s.deployments && s.nextId in after.state.deployments
    && after.state == s.(deployments := s.deployments[s.nextId := after.state.deployments[s.nextId]], nextId := s.nextId + 1)
    && RoutesTo(after.state.routes, s.nextId) == {} && !ActiveOperationOn(after.state.operations, s.nextId)
  }

  predicate NewManagedRow(d: Deployment, name: string, v: Id, node: Id, container: string, gpus: seq<Id>) {
    && d.name == Strip(name) && d.version == v && d.node == Some(node) && d.container == Some(Strip(container)) && d.gpus == gpus
    && d.managed && !d.retired && d.desired.WantStopped? && d.runtime.RtCreated? && d.health.HsUnknown?
  }

  predicate NewImportedRow(d: Deployment, name: string, v: Id, node: Option<Id>) {
    && d.name == Strip(name) && d.version == v && d.node == node && d.container.None? && d.gpus == []
    && !d.managed && !d.retired && d.desired.WantRunning? && d.runtime.RtRunning? && d.health.HsUnknown?
  }

  /** A managed deployment is created exactly when name, container and version permit; it is
      stopped and live as requested. */
  ghost predicate ManagedMeans(s: State, after: Outcome, name: string, v: Id, node: Id, container: string, gpus: seq<Id>) {
    && (after.reply.Ok? <==> MayBeCalled(s, name) && MayHaveContainer(s, container) && MayRun(s, v))
    && (after.reply.Ok? ==> OneMore(s, after) && NewManagedRow(after.state.deployments[s.nextId], name, v, node, container, gpus))
    && (after.reply.Err? ==> after.state == s)
  }

  lemma ManagedCreatedIff(s: State, name: string, v: Id, node: Id, container: string, gpus: seq<Id>)
    ensures CreateManaged(s, name, v, node, container, gpus).reply.Ok? <==>
              MayBeCalled(s, name) && MayHaveContainer(s, container) && MayRun(s, v)
    ensures CreateManaged(s, name, v, node, container, gpus).reply.Err? ==> CreateManaged(s, name, v, node, container, gpus).state == s
  {
    hide Strip, AddDeployment;
  }

  lemma ManagedCreated(s: State, name: string, v: Id, node: Id, container: string, gpus: seq<Id>)
    requires Inv(s)
    ensures ManagedMeans(s, CreateManaged(s, name, v, node, container, gpus), name, v, node, container, gpus)
  {
    ManagedCreatedIff(s, name, v, node, container, gpus);
    hide Inv, Strip, NameTaken, ContainerTaken, RequireVersion, OneMore, AddDeployment, MayBeCalled, MayHaveContainer, MayRun;
    AddingIsOneMore(s, Deployment(Strip(name), v, Some(node), true, WantStopped, RtCreated, HsUnknown, Some(Strip(container)), gpus, false));
  }

  lemma AddingIsOneMore(s: State, row: Deployment)
    requires Inv(s)
    ensures OneMore(s, Outcome(AddDeployment(s, row), Ok(RowReply(s.nextId)))) && AddDeployment(s, row).deployments[s.nextId] == row
  {
    NobodyKnows(s);
    hide Inv, RoutesTo, ActiveOperationOn;
  }

  /** A deployment is imported exactly when its name and version permit and an address is
      given. It counts as running from the start but is not managed, not healthy,
      not routed and not worked on, it claims no container and no GPU, and until its health is
      observed nothing can be done with it. */
  ghost predicate ImportedMeans(s: State, after: Outcome, name: string, v: Id, upstream: string, node: Option<Id>) {
    && (after.reply.Ok? <==> MayBeCalled(s, name) && Strip(upstream) != "" && MayRun(s, v))
    && (after.reply.Ok? ==>
          && OneMore(s, after) && NewImportedRow(after.state.deployments[s.nextId], name, v, node)
          && Untouchable(after.state, s.nextId))
    && (after.reply.Err? ==> after.state == s)
  }

  /** The deployment can be neither operated, nor switched from or to, nor published. */
  ghost predicate Untouchable(s: State, d: Id) {
    && (forall kind :: !CanEnqueue(s, d, kind))
    && (forall a, target :: !BaselineFacts(s, a, d, target) && !BaselineFacts(s, a, target, d))
    && (forall a :: !Publishable(s, a, d))
  }

  lemma ImportedCreatedIff(s: State, name: string, v: Id, upstream: string, node: Option<Id>)
    ensures ImportDeployment(s, name, v, upstream, node).reply.Ok? <==> MayBeCalled(s, name) && Strip(upstream) != "" && MayRun(s, v)
    ensures ImportDeployment(s, name, v, upstream, node).reply.Err? ==> ImportDeployment(s, name, v, upstream, node).state == s
  {
    hide Strip, AddDeployment;
  }

  lemma ImportedCreated(s: State, name: string, v: Id, upstream: string, node: Option<Id>)
    requires Inv(s)
    ensures ImportedMeans(s, ImportDeployment(s, name, v, upstream, node), name, v, upstream, node)
  {
    ImportedCreatedIff(s, name, v, upstream, node);
    hide Inv, Strip, NameTaken, RequireVersion, OneMore, AddDeployment, MayBeCalled, MayRun, Untouchable;
    var row := Deployment(Strip(name), v, node, false, WantRunning, RtRunning, HsUnknown, None, [], false);
    AddingIsOneMore(s, row);
    AddedIsUntouchable(s, row);
  }

  lemma AddedIsUntouchable(s: State, row: Deployment)
    requires !row.managed && !row.health.HsHealthy?
    ensures Untouchable(AddDeployment(s, row), s.nextId)
  {
    hide Compatible, RoutesTo;
  }

  /** No row mentions the next identifier. */
  lemma NobodyKnows(s: State)
    requires Inv(s)
    ensures s.nextId !in s.deployments && s.nextId !in s.aliases
    ensures RoutesTo(s.routes, s.nextId) == {} && !ActiveOperationOn(s.operations, s.nextId)
    ensures Targets(s.routes, s.nextId) == {}
  {
    hide VersionsKnown, OneActiveRoute, RoutesLive, OperationsLive, Shapes, Exclusive, ArchivedRetired, KeysIndexed, Lineage;
    forall i | i in s.operations ensures s.nextId !in Touches(s.operations[i]) {
      assert Touches(s.operations[i]) <= s.deployments.Keys;
      assert s.nextId !in s.deployments.Keys;
    }
  }

  /** An endpoint is created exactly when its name is free; it is enabled, serving and
      without route, and the version moves. */
  ghost predicate EndpointMeans(s: State, after: Outcome, name: string, api: ApiType) {
    && (after.reply.Ok? <==> forall a :: a in s.aliases ==> s.aliases[a].name != name)
    && (after.reply.Ok? ==>
          && after.reply.value == RowReply(s.nextId) && s.nextId !in s.aliases
          && after.state.aliases == s.aliases[s.nextId := Alias(name, api, true, Serving)]
          && after.state.routingVersion == s.routingVersion + 1
          && Table(after.state)[s.nextId] == Published(Alias(name, api, true, Serving), {})
          && forall a :: a in s.aliases ==> Table(after.state)[a] == Table(s)[a])
    && (after.reply.Err? ==> after.state == s)
  }

  lemma EndpointCreatedIff(s: State, name: string, api: ApiType)
    requires Inv(s)
    ensures EndpointMeans(s, CreateEndpoint(s, name, api), name, api)
  {
    NobodyKnows(s);
    hide Inv;
  }

  /** Updating an endpoint sets the flag and moves the version exactly when the gateway's
      table changes. */
  ghost predicate PatchMeans(s: State, after: Outcome, a: Id, enabled: Option<bool>) {
    && (after.reply.Ok? <==> a in s.aliases)
    && (after.reply.Ok? && enabled.Some? ==>
          a in after.state.aliases && after.state.aliases[a] == s.aliases[a].(enabled := enabled.value))
    && (after.state.routingVersion == s.routingVersion <==> Table(after.state) == Table(s))
    && after.state.routes == s.routes && after.state.aliases.Keys == s.aliases.Keys
    && (forall b :: b in s.aliases && b != a ==> Table(after.state)[b] == Table(s)[b])
  }

  lemma EndpointUpdatedIff(s: State, a: Id, enabled: Option<bool>)
    ensures PatchMeans(s, UpdateEndpoint(s, a, enabled), a, enabled)
  {
    var o := UpdateEndpoint(s, a, enabled);
    if o.state.routingVersion != s.routingVersion {
      assert Table(o.state)[a] != Table(s)[a];
    }
  }

  /** The worker's traffic write shows on that alias and nowhere else, and moves the version
      exactly when the gateway's table changes. */
  lemma TrafficShown(s: State, a: Id, traffic: TrafficState)
    requires a in s.aliases
    ensures var t := Apply(s, SetTraffic(a, traffic)).state;
            && a in t.aliases && t.aliases[a] == s.aliases[a].(traffic := traffic)
            && t == s.(aliases := t.aliases, routingVersion := t.routingVersion)
            && t.aliases.Keys == s.aliases.Keys && (forall b :: b in s.aliases && b != a ==> t.aliases[b] == s.aliases[b])
            && (t.routingVersion == s.routingVersion <==> Table(t) == Table(s))
  {
    var t := Apply(s, SetTraffic(a, traffic)).state;
    if t.routingVersion != s.routingVersion {
      assert Table(t)[a] != Table(s)[a];
    }
  }
}
