/** Which error a request is refused with. The other modules say when a request succeeds;
    these laws divide the remaining cases among the errors, in terms of the tables. */
module ControlPlaneRefusals {
  import opened Prelude
  import opened ControlPlane
  import opened ControlPlaneInvariants
  import opened ControlPlaneEnqueue
  import opened ControlPlaneRouting
  import opened ControlPlaneNames
  import opened ControlPlaneCancel

  predicate NewKey(s: State, key: Option<Key>) {
    key.None? || key.value !in s.keyIndex
  }

  // ------------------------------------------------------------ published rows

  predicate LeadsTo(routes: map<Id, Route>, r: Id, d: Id) {
    r in routes && routes[r].active && routes[r].deployment == d
  }

  ghost predicate Routed(routes: map<Id, Route>, d: Id) {
    exists r :: LeadsTo(routes, r, d)
  }

  ghost predicate RoutedTwice(routes: map<Id, Route>, d: Id) {
    exists q, r :: q != r && LeadsTo(routes, q, d) && LeadsTo(routes, r, d)
  }

  /** One ACTIVE route is named as such, several are called ambiguous. */
  lemma PublicationMeans(routes: map<Id, Route>, d: Id)
    ensures PublicationError(routes, d) == None <==> !Routed(routes, d)
    ensures PublicationError(routes, d) == Some(Conflict(AmbiguousActiveRoutes)) <==> RoutedTwice(routes, d)
    ensures PublicationError(routes, d) == Some(Conflict(ActiveRouteExists)) <==> Routed(routes, d) && !RoutedTwice(routes, d)
  {
    var to := RoutesTo(routes, d);
    assert forall r :: LeadsTo(routes, r, d) <==> r in to;
    if q, r :| q != r && LeadsTo(routes, q, d) && LeadsTo(routes, r, d) {
      TwoOf(to, q, r);
    } else if r :| r in to {
      assert to == {r};
    } else {
      assert to == {};
    }
  }

  lemma TwoOf(ids: set<Id>, q: Id, r: Id)
    requires q != r && q in ids && r in ids
    ensures |ids| > 1
  {
    assert ids == {q, r} + (ids - {q, r});
  }

  // ----------------------------------------------------------------- lifecycle

  /** What lifecycle operations are for: a live managed deployment on a node, with a container. */
  predicate Operable(row: Deployment) {
    row.managed && !row.retired && row.node.Some? && row.container.Some? && row.container.value != ""
  }

  ghost predicate MayBeRemoved(s: State, d: Id, kind: OpKind) {
    kind.OpDelete? && d in s.deployments && Operable(s.deployments[d]) && !ActiveOperationOn(s.operations, d)
  }

  /** A lifecycle request is refused as not found for an unknown deployment, as invalid for one
      that is not operated, and as conflicting for a retired or busy one; a removal also for
      what is still published or up. */
  lemma LifecycleRefusals(s: State, d: Id, kind: OpKind, key: Option<Key>, reason: Option<string>, who: Option<string>, n: int)
    requires NewKey(s, key)
    ensures kind.OpSwitch? ==> EnqueueLifecycle(s, d, kind, key, reason, who, n).reply == Err(Invalid)
    ensures !kind.OpSwitch? ==>
              var r := EnqueueLifecycle(s, d, kind, key, reason, who, n).reply;
              && (r == Err(NotFound) <==> d !in s.deployments)
              && (r == Err(Invalid) <==>
                    d in s.deployments && (!s.deployments[d].managed || (!s.deployments[d].retired && !Operable(s.deployments[d]))))
              && (r == Err(Conflict(Plain)) <==>
                    d in s.deployments && s.deployments[d].managed
                    && (s.deployments[d].retired || (Operable(s.deployments[d]) && ActiveOperationOn(s.operations, d))))
              && (r == Err(Conflict(AmbiguousActiveRoutes)) <==> MayBeRemoved(s, d, kind) && RoutedTwice(s.routes, d))
              && (r == Err(Conflict(ActiveRouteExists)) <==>
                    MayBeRemoved(s, d, kind) && Routed(s.routes, d) && !RoutedTwice(s.routes, d))
              && (r == Err(Conflict(RuntimeStillRunning)) <==>
                    MayBeRemoved(s, d, kind) && !Routed(s.routes, d)
                    && (s.deployments[d].runtime.RtRunning? || s.deployments[d].health.HsStarting?))
  {
    PublicationMeans(s.routes, d);
    hide ActiveOperationOn, PublicationError, Routed, RoutedTwice, NewOperation, AddOperation, LifecycleMeta, LifecycleSteps, DesiredOnEnqueue;
  }

  // -------------------------------------------------------------------- switch

  predicate WellAsked(ask: RequestedStrategy, w: SwitchTimeouts) {
    (ask.AskCold? || ask.AskHot?) && w.drain >= 1 && w.health >= 1 && w.vramRelease >= 1 && w.gatewayApply >= 1
  }

  /** The alias is in service and leads to another deployment than the target. */
  ghost predicate LeadsElsewhere(s: State, a: Id, target: Id) {
    && a in s.aliases && s.aliases[a].enabled && s.aliases[a].traffic.Serving?
    && exists r :: IsActiveRoute(s.routes, r, a) && s.routes[r].deployment != target
  }

  ghost predicate SourceFits(s: State, a: Id, target: Id) {
    exists source :: source in s.deployments && BaselineFacts(s, a, source, target)
  }

  ghost predicate PairBusy(s: State, a: Id, target: Id) {
    exists source :: source in s.deployments && BaselineFacts(s, a, source, target)
                     && (ActiveOperationOn(s.operations, source) || ActiveOperationOn(s.operations, target))
  }

  /** A switch that is asked for properly is refused as not found for an unknown alias, or an
      unknown target of an alias in service; as in progress or busy only when everything fits;
      and as invalid otherwise. */
  lemma SwitchRefusals(s: State, a: Id, target: Id, ask: RequestedStrategy, w: SwitchTimeouts, key: Option<Key>,
                       reason: Option<string>, who: Option<string>, n: int)
    requires Inv(s) && NewKey(s, key)
    ensures var r := EnqueueSwitch(s, a, target, ask, w, key, reason, who, n).reply;
            && (r == Err(NotFound) <==>
                  WellAsked(ask, w) && (a !in s.aliases || (LeadsElsewhere(s, a, target) && target !in s.deployments)))
            && (r == Err(Conflict(SwitchAlreadyInProgress)) <==>
                  WellAsked(ask, w) && SourceFits(s, a, target) && ActiveSwitchOn(s.operations, a))
            && (r == Err(Conflict(EndpointBusy)) <==>
                  WellAsked(ask, w) && !ActiveSwitchOn(s.operations, a) && PairBusy(s, a, target))
            && (r.Err? && !r.error.Invalid? && !r.error.NotFound? ==>
                  r.error == Conflict(SwitchAlreadyInProgress) || r.error == Conflict(EndpointBusy))
  {
    BaselineRefusals(s, a, target, None, false);
    BusyMeans(s, a, target);
    hide Inv, Baseline, BaselineFacts, LeadsElsewhere, SourceFits, PairBusy, ActiveOperationOn, ActiveSwitchOn, CreateSwitch, SwitchMeta;
  }

  /** The source of a fitting switch is the one its alias leads to. */
  lemma BusyMeans(s: State, a: Id, target: Id)
    requires Inv(s)
    ensures SourceFits(s, a, target) <==> Baseline(s, a, target, None, false).Ok?
    ensures Baseline(s, a, target, None, false).Ok? ==>
              var source := Baseline(s, a, target, None, false).value;
              PairBusy(s, a, target) <==> ActiveOperationOn(s.operations, source) || ActiveOperationOn(s.operations, target)
    ensures PairBusy(s, a, target) ==> SourceFits(s, a, target)
  {
    BaselineMeans(s, a, target);
    forall source | source in s.deployments && BaselineFacts(s, a, source, target)
      ensures Baseline(s, a, target, None, false) == Ok(source)
    {
      FactsSuffice(s, a, source, target);
    }
    if Baseline(s, a, target, None, false).Ok? { SourceIsLive(s, a, Baseline(s, a, target, None, false).value, target); }
    hide Inv, Baseline, BaselineFacts, ActiveOperationOn;
  }

  /** The alias leads to another deployment than it did for the original, or is not serving. */
  ghost predicate Moved(s: State, a: Id, expected: Option<Id>) {
    && a in s.aliases && s.aliases[a].enabled && s.aliases[a].traffic.Serving? && expected.Some?
    && exists r :: IsActiveRoute(s.routes, r, a) && s.routes[r].deployment != expected.value
  }

  lemma BaselineRefusals(s: State, a: Id, target: Id, expected: Option<Id>, retry: bool)
    requires Inv(s)
    ensures var b := Baseline(s, a, target, expected, retry);
            && (b == Err(NotFound) <==>
                  a !in s.aliases || (LeadsElsewhere(s, a, target) && !Moved(s, a, expected) && target !in s.deployments))
            && (b.Err? && !b.error.NotFound? && !b.error.Invalid? <==>
                  Moved(s, a, expected) || (retry && a in s.aliases && s.aliases[a].enabled && !s.aliases[a].traffic.Serving?))
            && (b.Err? && b.error.Conflict? ==> b.error.code == InvalidOperationState)
  {
    OneActiveOf(s, a);
    forall r | IsActiveRoute(s.routes, r, a) ensures s.routes[r].deployment in s.deployments && ActiveRoute(s.routes, a) == Some(r) {
      TheActiveRoute(s, a, r);
    }
    hide Inv, ActiveRoute, Compatible;
  }

  // --------------------------------------------------------------------- retry

  /** The original can be retried, as far as only itself and its retries are concerned. */
  ghost predicate Retriable(s: State, id: Id) {
    && id in s.operations && ColdOrHotSwitch(s.operations[id])
    && (s.operations[id].status.RolledBack? || (s.operations[id].status.Failed? && !s.operations[id].meta.destructive))
    && !ActiveRetryOf(s.operations, id)
  }

  /** The alias is out of service, leads nowhere, or still leads to the source, which does not
      fit together with the target any more. */
  ghost predicate Unfit(s: State, a: Id, source: Id, target: Id)
    requires a in s.aliases
  {
    || !s.aliases[a].enabled
    || (s.aliases[a].traffic.Serving?
        && (forall r :: IsActiveRoute(s.routes, r, a) ==> s.routes[r].deployment == source)
        && !BaselineFacts(s, a, source, target))
  }

  /** A retry is refused as not found only for an unknown operation, and as invalid only for a
      cold switch whose deployments do not fit together any more. Everything else, a moved
      route and any misfit of a hot switch included, is an invalid state. */
  lemma RetryRefusals(s: State, id: Id, key: Option<Key>, who: Option<string>)
    requires Inv(s) && NewKey(s, key)
    ensures var r := RetrySwitch(s, id, key, who).reply;
            && (r == Err(NotFound) <==> id !in s.operations)
            && (r == Err(Invalid) <==>
                  Retriable(s, id)
                  && var o := s.operations[id];
                     && o.strategy == Some(Cold) && !ActiveSwitchOn(s.operations, o.aliasId.value)
                     && Unfit(s, o.aliasId.value, o.source.value, o.target.value))
            && (r.Err? && !r.error.NotFound? && !r.error.Invalid? ==> r.error == Conflict(InvalidOperationState))
  {
    RetriableMeans(s, id);
    if Retriable(s, id) {
      var o := s.operations[id];
      RetryBaseline(s, o.aliasId.value, o.source.value, o.target.value);
      RetriedWithin(s, id, key, who);
    } else {
      OriginalRefused(s, id, key, who);
    }
    hide Inv, Retriable, RetryOriginalError, RetrySwitch, Baseline, Unfit, BaselineFacts, ActiveSwitchOn;
  }

  lemma RetriableMeans(s: State, id: Id)
    requires Inv(s)
    ensures Retriable(s, id) ==>
              var o := s.operations[id];
              && RetryOriginalError(s, id) == None && o.strategy.Some? && o.aliasId.Some? && o.source.Some? && o.target.Some?
              && o.aliasId.value in s.aliases && o.target.value in s.deployments
    ensures !Retriable(s, id) ==>
              RetryOriginalError(s, id) == Some(if id in s.operations then Conflict(InvalidOperationState) else NotFound)
  {
    hide Inv, ActiveRetryOf;
    if id in s.operations {
      KnownRow(s, id);
      hide Touches, IdSet;
    }
  }

  /** What an operation names exists. */
  lemma KnownRow(s: State, id: Id)
    requires Inv(s) && id in s.operations
    ensures var o := s.operations[id];
            && WellShaped(o) && (o.target.Some? ==> o.target.value in s.deployments) && (o.aliasId.Some? ==> o.aliasId.value in s.aliases)
  {
    var o := s.operations[id];
    assert Touches(o) <= s.deployments.Keys && IdSet(o.aliasId) <= s.aliases.Keys;
    hide Inv, WellShaped;
    assert o.target.Some? ==> o.target.value in Touches(o);
    assert o.aliasId.Some? ==> o.aliasId.value in IdSet(o.aliasId);
    assert WellShaped(o);
  }

  lemma RetryBaseline(s: State, a: Id, source: Id, target: Id)
    requires Inv(s) && a in s.aliases && target in s.deployments
    ensures var b := Baseline(s, a, target, Some(source), true);
            b.Err? ==> b.error == (if Unfit(s, a, source, target) then Invalid else Conflict(InvalidOperationState))
    ensures Unfit(s, a, source, target) ==> Baseline(s, a, target, Some(source), true).Err?
  {
    BaselineRefusals(s, a, target, Some(source), true);
    ExpectedBaselineMeans(s, a, target, source);
    hide Inv, Baseline, LeadsElsewhere;
    assert BaselineFacts(s, a, source, target) ==> s.aliases[a].enabled;
    hide BaselineFacts;
  }

  lemma RetriedWithin(s: State, id: Id, key: Option<Key>, who: Option<string>)
    requires RetryOriginalError(s, id) == None && NewKey(s, key) && id in s.operations && s.operations[id].strategy.Some?
    requires s.operations[id].aliasId.Some? && s.operations[id].source.Some? && s.operations[id].target.Some?
    ensures var o, r := s.operations[id], RetrySwitch(s, id, key, who).reply;
            var b := Baseline(s, o.aliasId.value, o.target.value, Some(o.source.value), true);
            if !ActiveSwitchOn(s.operations, o.aliasId.value) && b.Err? then
              r == Err(if o.strategy == Some(Hot) && b.error.Invalid? then Conflict(InvalidOperationState) else b.error)
            else
              r.Err? ==> r.error == Conflict(InvalidOperationState)
  {
    hide Baseline, RetryOriginalError, ActiveSwitchOn, ActiveOperationOn, CreateSwitch, RetryMeta, Truthy, RetryAttempts;
  }

  // -------------------------------------------------------------- cancellation

  /** A cancel request is refused as not found only for an unknown operation. */
  lemma CancelRefusals(s: State, id: Id, reason: Option<string>, now: int)
    ensures var r := CancelOperation(s, id, reason, now).reply;
            && (r == Err(NotFound) <==> id !in s.operations)
            && (r == Err(Conflict(InvalidOperationState)) <==>
                  id in s.operations
                  && var o := s.operations[id];
                     || !o.kind.OpSwitch? || o.strategy.None?
                     || o.status.Succeeded? || o.status.Failed? || o.status.ManualIntervention?
                     || (o.status.RolledBack? && o.cancelRequestedAt.None?))
  {
    hide PatchReason, FinalizeCancelled;
  }

  // -------------------------------------------------------------------- routes

  /** A route request is refused as busy without the locks, as not found for an unknown alias
      or deployment, as invalid when the deployment may not be published, and as conflicting
      only as an initial publication of an alias with another target. */
  lemma RouteRefusals(s: State, a: Id, d: Id, rewrite: Option<string>, initial: bool, locksFree: bool)
    requires Inv(s)
    ensures var r := ActivateRoute(s, a, d, rewrite, initial, locksFree).reply;
            && (r == Err(Conflict(RouteMutationBusy)) <==> !locksFree)
            && (r == Err(NotFound) <==> locksFree && (a !in s.aliases || d !in s.deployments))
            && (r == Err(Invalid) <==> locksFree && a in s.aliases && d in s.deployments && !Publishable(s, a, d))
            && (r == Err(Conflict(ActiveRouteExists)) <==>
                  locksFree && Publishable(s, a, d) && initial && !OnlyTarget(s.routes, a, d, rewrite))
  {
    TargetRefusals(s, a, d);
    OneActiveOf(s, a);
    OneTarget(s, a);
    hide Inv, RouteTargetError, Publishable, RequestedRewrite, Targets, AddRoute, Deactivated;
  }

  lemma TargetRefusals(s: State, a: Id, d: Id)
    requires Inv(s)
    ensures RouteTargetError(s, a, d) ==
              if a !in s.aliases || d !in s.deployments then Some(NotFound) else if Publishable(s, a, d) then None else Some(Invalid)
  {
    assert d in s.deployments ==> s.deployments[d].version in s.versions;
    hide Inv;
  }

  /** A withdrawal is refused as invalid when there is a target and none is expected, and as
      changed when another one is expected. */
  lemma WithdrawRefusals(s: State, a: Id, expected: Option<Id>, locksFree: bool)
    requires Inv(s)
    ensures var r := Unpublish(s, a, expected, locksFree).reply;
            && (r == Err(Conflict(RouteMutationBusy)) <==> !locksFree)
            && (r == Err(NotFound) <==> locksFree && a !in s.aliases)
            && (r == Err(Invalid) <==> locksFree && a in s.aliases && Targets(s.routes, a) != {} && expected.None?)
            && (r == Err(Conflict(RouteTargetChanged)) <==>
                  locksFree && a in s.aliases && expected.Some? && exists x :: x in Targets(s.routes, a) && x.0 != expected.value)
  {
    OneActiveOf(s, a);
    OneTarget(s, a);
    hide Inv, Targets, Deactivated;
  }

  /** An endpoint is refused only for its name or as unknown. */
  lemma EndpointRefusals(s: State, name: string, api: ApiType, a: Id, enabled: Option<bool>)
    ensures CreateEndpoint(s, name, api).reply.Err? ==> CreateEndpoint(s, name, api).reply.error == Conflict(Plain)
    ensures UpdateEndpoint(s, a, enabled).reply.Err? ==> UpdateEndpoint(s, a, enabled).reply.error == NotFound
  {
    hide AliasTaken;
  }

  // ------------------------------------------------- deployments and versions

  /** A creation is refused as invalid for a blank text or an archived version, as not found
      for an unknown version, and as conflicting for a taken name or container. */
  lemma CreationRefusals(s: State, name: string, v: Id, node: Id, container: string, gpus: seq<Id>)
    ensures var r := CreateManaged(s, name, v, node, container, gpus).reply;
            && (r == Err(Invalid) <==> Strip(name) == "" || Strip(container) == "" || (v in s.versions && s.versions[v].archived))
            && (r == Err(NotFound) <==> Strip(name) != "" && Strip(container) != "" && v !in s.versions)
            && (r == Err(Conflict(Plain)) <==>
                  && Strip(name) != "" && Strip(container) != "" && MayRun(s, v)
                  && !(MayBeCalled(s, name) && MayHaveContainer(s, container)))
  {
    hide Strip, AddDeployment;
  }

  lemma ImportRefusals(s: State, name: string, v: Id, upstream: string, node: Option<Id>)
    ensures var r := ImportDeployment(s, name, v, upstream, node).reply;
            && (r == Err(Invalid) <==> Strip(name) == "" || Strip(upstream) == "" || (v in s.versions && s.versions[v].archived))
            && (r == Err(NotFound) <==> Strip(name) != "" && Strip(upstream) != "" && v !in s.versions)
            && (r == Err(Conflict(Plain)) <==> Strip(upstream) != "" && Strip(name) != "" && MayRun(s, v) && !MayBeCalled(s, name))
  {
    hide Strip, AddDeployment;
  }

  /** A live deployment is not retired for its routes first, then for running, then for what
      is at work on it. */
  lemma RetireRefusals(s: State, d: Id)
    ensures var r, live := RetireDeployment(s, d).reply, Live(s.deployments, d);
            && (r == Err(NotFound) <==> d !in s.deployments)
            && (r == Err(Conflict(AmbiguousActiveRoutes)) <==> live && RoutedTwice(s.routes, d))
            && (r == Err(Conflict(ActiveRouteExists)) <==> live && Routed(s.routes, d) && !RoutedTwice(s.routes, d))
            && (r == Err(Conflict(RuntimeStillRunning)) <==> live && !Routed(s.routes, d) && ManagedUp(s.deployments[d]))
            && (r == Err(Conflict(ActiveLifecycleOperation)) <==>
                  live && !Routed(s.routes, d) && !ManagedUp(s.deployments[d]) && ActiveOperationOn(s.operations, d))
  {
    PublicationMeans(s.routes, d);
    hide ActiveOperationOn, PublicationError, Routed, RoutedTwice;
  }

  predicate ManagedUp(row: Deployment) {
    row.managed && (row.runtime.RtRunning? || row.health.HsStarting?)
  }

  /** A version is not archived for its live deployments first, then for a job that is seen. */
  lemma ArchiveRefusals(s: State, v: Id, jobs: seq<Option<Id>>)
    ensures var r := ArchiveVersion(s, v, jobs).reply;
            var inUse := exists d :: Live(s.deployments, d) && s.deployments[d].version == v;
            && (r == Err(NotFound) <==> v !in s.versions)
            && (r == Err(Conflict(ActiveDeploymentExists)) <==> v in s.versions && !s.versions[v].archived && inUse)
            && (r == Err(Conflict(ActiveDownloadJob)) <==>
                  v in s.versions && !s.versions[v].archived && !inUse && exists i :: 0 <= i < |jobs| && i < 20 && jobs[i] == Some(v))
  {
  }
}
