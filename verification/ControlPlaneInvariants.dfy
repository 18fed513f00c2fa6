/** What every run of the control plane keeps: exclusive active operations, routes and
    operations that never name a retired deployment, archived versions without live
    deployments, one ACTIVE route per alias, and retry lineage. No single service
    establishes these: each relies on checks the others make. */
module ControlPlaneInvariants {
  import opened Prelude
  import opened ControlPlane

  type Operations = map<Id, Operation>

  ghost predicate Below(keys: set<Id>, n: Id) {
    forall i :: i in keys ==> i < n
  }

  /** Identifiers in use are below the counter. */
  ghost predicate FreshIds(s: State) {
    && Below(s.versions.Keys, s.nextId) && Below(s.deployments.Keys, s.nextId) && Below(s.aliases.Keys, s.nextId)
    && Below(s.routes.Keys, s.nextId) && Below(s.operations.Keys, s.nextId)
  }

  ghost predicate VersionsKnown(deployments: map<Id, Deployment>, versions: map<Id, Version>) {
    forall d :: d in deployments ==> deployments[d].version in versions
  }

  ghost predicate RouteRowsKnown(routes: map<Id, Route>, aliases: set<Id>, deployments: set<Id>) {
    forall r :: r in routes ==> routes[r].aliasId in aliases && routes[r].deployment in deployments
  }

  ghost predicate OperationRowsKnown(operations: Operations, aliases: set<Id>, deployments: set<Id>) {
    forall i :: i in operations ==> Touches(operations[i]) <= deployments && IdSet(operations[i].aliasId) <= aliases
  }

  predicate BothActive(a: Route, b: Route) {
    a.active && b.active && a.aliasId == b.aliasId
  }

  /** At most one ACTIVE route per alias. */
  ghost predicate OneActiveRoute(routes: map<Id, Route>) {
    forall i, j :: i in routes && j in routes && BothActive(routes[i], routes[j]) ==> i == j
  }

  ghost predicate Live(deployments: map<Id, Deployment>, d: Id) {
    d in deployments && !deployments[d].retired
  }

  /** No ACTIVE route targets a retired deployment. */
  ghost predicate RoutesLive(routes: map<Id, Route>, deployments: map<Id, Deployment>) {
    forall r :: r in routes && routes[r].active ==> Live(deployments, routes[r].deployment)
  }

  /** No active operation has a retired source or target. */
  ghost predicate OperationsLive(operations: Operations, deployments: map<Id, Deployment>) {
    forall i, d :: i in operations && Active(operations[i].status) && d in Touches(operations[i]) ==> Live(deployments, d)
  }

  /** A switch names an alias and two different deployments; a lifecycle operation names one
      deployment and nothing else. */
  predicate WellShaped(o: Operation) {
    if o.kind.OpSwitch? then
      o.strategy.Some? && o.aliasId.Some? && o.source.Some? && o.target.Some? && o.source != o.target
    else
      o.strategy.None? && o.aliasId.None? && o.source.None? && o.target.Some? && o.retryOf.None?
  }

  ghost predicate Shapes(operations: Operations) {
    forall i :: i in operations ==> WellShaped(operations[i])
  }

  /** Two operations that may be active at the same time. */
  predicate Apart(a: Operation, b: Operation) {
    && Touches(a) !! Touches(b)
    && !(a.kind.OpSwitch? && b.kind.OpSwitch? && a.aliasId == b.aliasId)
  }

  /** Different active operations share no deployment, and no alias has two active switches. */
  ghost predicate Exclusive(operations: Operations) {
    forall i, j :: i in operations && j in operations && i != j && Active(operations[i].status) && Active(operations[j].status) ==>
      Apart(operations[i], operations[j])
  }

  /** Every deployment of an archived version is retired. */
  ghost predicate ArchivedRetired(deployments: map<Id, Deployment>, versions: map<Id, Version>) {
    forall d :: d in deployments && deployments[d].version in versions && versions[deployments[d].version].archived ==>
      deployments[d].retired
  }

  ghost predicate KeysIndexed(operations: Operations, keyIndex: map<Key, Id>) {
    && (forall k :: k in keyIndex ==> keyIndex[k] in operations && operations[keyIndex[k]].key == Some(k))
    && (forall i :: i in operations && operations[i].key.Some? ==>
          operations[i].key.value in keyIndex && keyIndex[operations[i].key.value] == i)
  }

  /** What a retry takes over from its original. */
  predicate Inherits(child: Operation, parent: Operation) {
    && parent.kind.OpSwitch? && child.kind.OpSwitch?
    && child.aliasId == parent.aliasId && child.source == parent.source && child.target == parent.target
    && child.strategy == parent.strategy && child.reason == parent.reason
    && child.meta.timeouts == EffectiveTimeouts(parent.meta.timeouts)
    && child.meta.reason == RetryReason(parent)
  }

  function RetryReason(parent: Operation): Option<string> {
    if Truthy(parent.meta.reason).Some? then parent.meta.reason else Truthy(parent.reason)
  }

  /** Retries point to earlier operations they inherit from. */
  ghost predicate Lineage(operations: Operations) {
    forall i :: i in operations && operations[i].retryOf.Some? ==>
      var p := operations[i].retryOf.value;
      p in operations && p < i && Inherits(operations[i], operations[p])
  }

  ghost predicate Inv(s: State) {
    && FreshIds(s)
    && VersionsKnown(s.deployments, s.versions)
    && RouteRowsKnown(s.routes, s.aliases.Keys, s.deployments.Keys)
    && OperationRowsKnown(s.operations, s.aliases.Keys, s.deployments.Keys)
    && OneActiveRoute(s.routes)
    && RoutesLive(s.routes, s.deployments)
    && OperationsLive(s.operations, s.deployments)
    && Shapes(s.operations)
    && Exclusive(s.operations)
    && ArchivedRetired(s.deployments, s.versions)
    && KeysIndexed(s.operations, s.keyIndex)
    && Lineage(s.operations)
  }

  lemma EmptyIsGood()
    ensures Inv(EMPTY_STATE)
  {
  }

  // --------------------------------------------------- updates of one table

  /** The fields of an operation row that nothing writes after it was created. */
  predicate SameIdentity(a: Operation, b: Operation) {
    && a.kind == b.kind && a.strategy == b.strategy && a.aliasId == b.aliasId && a.source == b.source && a.target == b.target
    && a.retryOf == b.retryOf && a.key == b.key && a.reason == b.reason
    && a.meta.timeouts == b.meta.timeouts && a.meta.reason == b.meta.reason
  }

  /** What the operations table must satisfy beside the other tables. */
  ghost predicate OperationsGood(operations: Operations, aliases: set<Id>, deployments: map<Id, Deployment>) {
    && OperationRowsKnown(operations, aliases, deployments.Keys)
    && OperationsLive(operations, deployments)
    && Shapes(operations)
    && Exclusive(operations)
    && Lineage(operations)
  }

  lemma OperationsGoodKeeps(s: State, operations: Operations, keyIndex: map<Key, Id>, next: Id)
    requires Inv(s) && OperationsGood(operations, s.aliases.Keys, s.deployments)
    requires KeysIndexed(operations, keyIndex) && Below(operations.Keys, next) && s.nextId <= next
    ensures Inv(s.(operations := operations, keyIndex := keyIndex, nextId := next))
  {
    hide VersionsKnown, RouteRowsKnown, OperationRowsKnown, OneActiveRoute, RoutesLive, OperationsLive, Shapes, Exclusive,
      ArchivedRetired, KeysIndexed, Lineage;
  }

  lemma GoodOperations(s: State)
    requires Inv(s)
    ensures OperationsGood(s.operations, s.aliases.Keys, s.deployments)
    ensures KeysIndexed(s.operations, s.keyIndex) && Below(s.operations.Keys, s.nextId)
  {
    hide VersionsKnown, RouteRowsKnown, OperationRowsKnown, OneActiveRoute, RoutesLive, OperationsLive, Shapes, Exclusive,
      ArchivedRetired, KeysIndexed, Lineage, Below;
  }

  /** One row of the operations table, whatever it was before. */
  lemma RowsAfter(operations: Operations, id: Id, o: Operation, aliases: set<Id>, deployments: map<Id, Deployment>)
    requires OperationRowsKnown(operations, aliases, deployments.Keys) && OperationsLive(operations, deployments) && Shapes(operations)
    requires Touches(o) <= deployments.Keys && IdSet(o.aliasId) <= aliases && WellShaped(o)
    requires Active(o.status) ==> forall d :: d in Touches(o) ==> Live(deployments, d)
    ensures OperationRowsKnown(operations[id := o], aliases, deployments.Keys)
    ensures OperationsLive(operations[id := o], deployments) && Shapes(operations[id := o])
  {
    hide Touches, IdSet, WellShaped, Active, Live;
  }

  lemma SameTouches(a: Operation, b: Operation)
    requires SameIdentity(a, b)
    ensures Touches(a) == Touches(b) && IdSet(a.aliasId) == IdSet(b.aliasId)
    ensures WellShaped(a) == WellShaped(b) && a.key == b.key && a.kind == b.kind
  {
  }

  /** Writing to a row without reviving it. */
  lemma PutOperationKeeps(s: State, id: Id, o: Operation)
    requires Inv(s) && id in s.operations
    requires SameIdentity(o, s.operations[id]) && (Active(o.status) ==> Active(s.operations[id].status))
    ensures Inv(s.(operations := s.operations[id := o]))
  {
    GoodOperations(s);
    hide Inv, Exclusive, Lineage, KeysIndexed, Below, Touches, IdSet, WellShaped, SameIdentity, Live;
    var operations := s.operations[id := o];
    assert operations.Keys == s.operations.Keys;
    SameTouches(o, s.operations[id]);
    RowsAfter(s.operations, id, o, s.aliases.Keys, s.deployments);
    LineageAfterPut(s.operations, id, o);
    ExclusiveAfterPut(s.operations, id, o);
    IndexAfterPut(s.operations, s.keyIndex, id, o);
    OperationsGoodKeeps(s, operations, s.keyIndex, s.nextId);
  }

  lemma IndexAfterPut(operations: Operations, keyIndex: map<Key, Id>, id: Id, o: Operation)
    requires KeysIndexed(operations, keyIndex) && id in operations && o.key == operations[id].key
    ensures KeysIndexed(operations[id := o], keyIndex)
  {
  }

  lemma LineageAfterPut(operations: Operations, id: Id, o: Operation)
    requires Lineage(operations) && id in operations && SameIdentity(o, operations[id])
    ensures Lineage(operations[id := o])
  {
    var t := operations[id := o];
    forall i | i in t && t[i].retryOf.Some?
      ensures var p := t[i].retryOf.value;
              p in t && p < i && Inherits(t[i], t[p])
    {
      assert Inherits(operations[i], operations[operations[i].retryOf.value]);
    }
  }

  lemma ExclusiveAfterPut(operations: Operations, id: Id, o: Operation)
    requires Exclusive(operations) && id in operations && SameIdentity(o, operations[id])
    requires Active(o.status) ==> Active(operations[id].status)
    ensures Exclusive(operations[id := o])
  {
    var t := operations[id := o];
    forall i, j | i in t && j in t && i != j && Active(t[i].status) && Active(t[j].status)
      ensures Apart(t[i], t[j])
    {
      assert Apart(operations[i], operations[j]);
    }
  }

  /** An operation whose deployments and alias are free. */
  ghost predicate Free(operations: Operations, o: Operation) {
    && (forall d :: d in Touches(o) ==> !ActiveOperationOn(operations, d))
    && (o.kind.OpSwitch? ==> o.aliasId.Some? && !ActiveSwitchOn(operations, o.aliasId.value))
  }

  lemma ExclusiveWithNewcomer(operations: Operations, id: Id, o: Operation)
    requires Exclusive(operations) && Free(operations, o)
    requires id in operations ==> !Active(operations[id].status)
    ensures Exclusive(operations[id := o])
  {
    var t := operations[id := o];
    forall i, j | i in t && j in t && i != j && Active(t[i].status) && Active(t[j].status)
      ensures Apart(t[i], t[j])
    {
      if i == id {
        NewcomerApart(operations, o, j);
      } else if j == id {
        NewcomerApart(operations, o, i);
      } else {
        assert Apart(operations[i], operations[j]);
      }
    }
  }

  /** An operation whose deployments and alias are free is apart from every active one. */
  lemma NewcomerApart(operations: Operations, o: Operation, other: Id)
    requires other in operations && Active(operations[other].status) && Free(operations, o)
    ensures Apart(o, operations[other]) && Apart(operations[other], o)
  {
    forall d | d in Touches(o) ensures d !in Touches(operations[other]) {
      assert !ActiveOperationOn(operations, d);
    }
  }

  /** Reviving a row that conflicts with nothing. */
  lemma ReviveKeeps(s: State, id: Id, o: Operation)
    requires Inv(s) && id in s.operations && !Active(s.operations[id].status)
    requires SameIdentity(o, s.operations[id]) && o.kind.OpSwitch? && SafeToReopen(s, id)
    ensures Inv(s.(operations := s.operations[id := o]))
  {
    GoodOperations(s);
    SameTouches(o, s.operations[id]);
    SafeIsFree(s, id, o);
    hide Inv, Exclusive, Lineage, KeysIndexed, Below, Touches, IdSet, WellShaped, SameIdentity, Free, SafeToReopen;
    var operations := s.operations[id := o];
    assert operations.Keys == s.operations.Keys;
    RowsAfter(s.operations, id, o, s.aliases.Keys, s.deployments);
    LineageAfterPut(s.operations, id, o);
    ExclusiveWithNewcomer(s.operations, id, o);
    IndexAfterPut(s.operations, s.keyIndex, id, o);
    OperationsGoodKeeps(s, operations, s.keyIndex, s.nextId);
  }

  lemma SafeIsFree(s: State, id: Id, o: Operation)
    requires id in s.operations && SafeToReopen(s, id) && SameIdentity(o, s.operations[id]) && WellShaped(o)
    ensures Free(s.operations, o) && forall d :: d in Touches(o) ==> Live(s.deployments, d)
  {
    hide ActiveOperationOn, ActiveSwitchOn;
    SameTouches(o, s.operations[id]);
  }

  /** Inserting an operation whose deployments and alias are free. */
  lemma AddOperationKeeps(s: State, o: Operation)
    requires Inv(s) && WellShaped(o) && IdSet(o.aliasId) <= s.aliases.Keys
    requires forall d :: d in Touches(o) ==> Live(s.deployments, d)
    requires Free(s.operations, o)
    requires o.key.Some? ==> o.key.value !in s.keyIndex
    requires o.retryOf.Some? ==> o.retryOf.value in s.operations && Inherits(o, s.operations[o.retryOf.value])
    ensures Inv(AddOperation(s, o))
  {
    GoodOperations(s);
    assert Touches(o) <= s.deployments.Keys;
    IndexAfterAdd(s, o);
    hide Inv, Exclusive, Lineage, KeysIndexed, Touches, IdSet, WellShaped, Free, Inherits, Live;
    var t, id := AddOperation(s, o), s.nextId;
    assert t.operations.Keys == s.operations.Keys + {id};
    RowsAfter(s.operations, id, o, s.aliases.Keys, s.deployments);
    ExclusiveWithNewcomer(s.operations, id, o);
    LineageAfterAdd(s.operations, id, o);
    OperationsGoodKeeps(s, t.operations, t.keyIndex, t.nextId);
  }

  lemma LineageAfterAdd(operations: Operations, id: Id, o: Operation)
    requires Lineage(operations) && Below(operations.Keys, id)
    requires o.retryOf.Some? ==> o.retryOf.value in operations && Inherits(o, operations[o.retryOf.value])
    ensures Lineage(operations[id := o])
  {
    var t := operations[id := o];
    forall i | i in t && t[i].retryOf.Some?
      ensures var p := t[i].retryOf.value;
              p in t && p < i && Inherits(t[i], t[p])
    {
      if i != id {
        assert Inherits(operations[i], operations[operations[i].retryOf.value]);
      }
    }
  }

  lemma IndexAfterAdd(s: State, o: Operation)
    requires KeysIndexed(s.operations, s.keyIndex) && Below(s.operations.Keys, s.nextId)
    requires o.key.Some? ==> o.key.value !in s.keyIndex
    ensures var t := AddOperation(s, o); KeysIndexed(t.operations, t.keyIndex)
  {
  }

  /** What the deployments table must satisfy beside the other tables. */
  ghost predicate DeploymentsGood(s: State, deployments: map<Id, Deployment>) {
    && s.deployments.Keys <= deployments.Keys
    && VersionsKnown(deployments, s.versions)
    && RoutesLive(s.routes, deployments)
    && OperationsLive(s.operations, deployments)
    && ArchivedRetired(deployments, s.versions)
  }

  lemma DeploymentsGoodKeeps(s: State, deployments: map<Id, Deployment>, next: Id)
    requires Inv(s) && DeploymentsGood(s, deployments) && Below(deployments.Keys, next) && s.nextId <= next
    ensures Inv(s.(deployments := deployments, nextId := next))
  {
    hide VersionsKnown, OneActiveRoute, RoutesLive, OperationsLive, Shapes, Exclusive, ArchivedRetired, KeysIndexed, Lineage,
      Touches, IdSet;
  }

  lemma GoodDeployments(s: State)
    requires Inv(s)
    ensures DeploymentsGood(s, s.deployments) && Below(s.deployments.Keys, s.nextId)
  {
    hide VersionsKnown, RouteRowsKnown, OperationRowsKnown, OneActiveRoute, RoutesLive, OperationsLive, Shapes, Exclusive,
      ArchivedRetired, KeysIndexed, Lineage, Below;
  }

  lemma PutDeploymentKeeps(s: State, d: Id, row: Deployment)
    requires Inv(s) && d in s.deployments && row.version == s.deployments[d].version
    requires row.retired != s.deployments[d].retired ==> !ActiveOperationOn(s.operations, d) && RoutesTo(s.routes, d) == {}
    requires row.retired == s.deployments[d].retired || row.retired
    ensures Inv(s.(deployments := s.deployments[d := row]))
  {
    GoodDeployments(s);
    hide Inv, Below, Touches;
    var deployments := s.deployments[d := row];
    assert deployments.Keys == s.deployments.Keys;
    forall r | r in s.routes && s.routes[r].active ensures Live(deployments, s.routes[r].deployment) {
      assert s.routes[r].deployment == d ==> r in RoutesTo(s.routes, d);
      assert Live(s.deployments, s.routes[r].deployment);
    }
    forall i, x | i in s.operations && Active(s.operations[i].status) && x in Touches(s.operations[i]) ensures Live(deployments, x) {
      assert Live(s.deployments, x);
    }
    DeploymentsGoodKeeps(s, deployments, s.nextId);
  }

  lemma AddDeploymentKeeps(s: State, row: Deployment)
    requires Inv(s) && RequireVersion(s, row.version) == None && !row.retired
    ensures Inv(AddDeployment(s, row))
  {
    GoodDeployments(s);
    hide Inv, Touches;
    var deployments := s.deployments[s.nextId := row];
    assert deployments.Keys == s.deployments.Keys + {s.nextId};
    forall r | r in s.routes && s.routes[r].active ensures Live(deployments, s.routes[r].deployment) {
      assert Live(s.deployments, s.routes[r].deployment);
    }
    forall i, x | i in s.operations && Active(s.operations[i].status) && x in Touches(s.operations[i]) ensures Live(deployments, x) {
      assert Live(s.deployments, x);
    }
    DeploymentsGoodKeeps(s, deployments, s.nextId + 1);
  }

  /** What a state of the routes table must satisfy beside the other tables. */
  ghost predicate RoutesGood(s: State, routes: map<Id, Route>) {
    && RouteRowsKnown(routes, s.aliases.Keys, s.deployments.Keys)
    && OneActiveRoute(routes)
    && RoutesLive(routes, s.deployments)
  }

  lemma RoutesGoodKeeps(s: State, routes: map<Id, Route>, version: nat, next: Id)
    requires Inv(s) && RoutesGood(s, routes) && Below(routes.Keys, next) && s.nextId <= next
    ensures Inv(s.(routes := routes, routingVersion := version, nextId := next))
  {
    hide VersionsKnown, RouteRowsKnown, OperationRowsKnown, OneActiveRoute, RoutesLive, OperationsLive, Shapes, Exclusive,
      ArchivedRetired, KeysIndexed, Lineage;
  }

  lemma OffIsGood(s: State, a: Id)
    requires Inv(s)
    ensures var off := Deactivated(s.routes, a);
            && RoutesGood(s, off) && NoneActive(off, a) && off.Keys == s.routes.Keys && Below(off.Keys, s.nextId)
  {
    hide VersionsKnown, OperationRowsKnown, OperationsLive, Shapes, Exclusive, ArchivedRetired, KeysIndexed, Lineage, Below;
  }

  predicate NoneActive(routes: map<Id, Route>, a: Id) {
    forall r :: r in routes && routes[r].aliasId == a ==> !routes[r].active
  }

  lemma OnIsGood(s: State, routes: map<Id, Route>, id: Id, row: Route)
    requires RoutesGood(s, routes) && NoneActive(routes, row.aliasId)
    requires row.aliasId in s.aliases && Live(s.deployments, row.deployment)
    ensures RoutesGood(s, routes[id := row])
  {
  }

  lemma PutAliasKeeps(s: State, a: Id, row: Alias, version: nat)
    requires Inv(s) && a in s.aliases
    ensures Inv(s.(aliases := s.aliases[a := row], routingVersion := version))
  {
    hide VersionsKnown, RouteRowsKnown, OperationRowsKnown, OneActiveRoute, RoutesLive, OperationsLive, Shapes, Exclusive,
      ArchivedRetired, KeysIndexed, Lineage, Below;
    assert s.aliases[a := row].Keys == s.aliases.Keys;
  }

  lemma AddAliasKeeps(s: State, row: Alias, version: nat)
    requires Inv(s)
    ensures Inv(s.(aliases := s.aliases[s.nextId := row], routingVersion := version, nextId := s.nextId + 1))
  {
    hide VersionsKnown, OneActiveRoute, RoutesLive, OperationsLive, Shapes, Exclusive, ArchivedRetired, KeysIndexed, Lineage;
    assert s.aliases[s.nextId := row].Keys == s.aliases.Keys + {s.nextId};
  }

  lemma ArchiveKeeps(s: State, v: Id)
    requires Inv(s) && v in s.versions
    requires forall d :: d in s.deployments && s.deployments[d].version == v ==> s.deployments[d].retired
    ensures Inv(s.(versions := s.versions[v := s.versions[v].(archived := true)]))
  {
    hide RouteRowsKnown, OperationRowsKnown, OneActiveRoute, RoutesLive, OperationsLive, Shapes, Exclusive, KeysIndexed, Lineage, Below;
    assert s.versions[v := s.versions[v].(archived := true)].Keys == s.versions.Keys;
  }

  lemma NewVersionKeeps(s: State, row: Version)
    requires Inv(s)
    ensures Inv(s.(versions := s.versions[s.nextId := row], nextId := s.nextId + 1))
  {
    hide RouteRowsKnown, OperationRowsKnown, OneActiveRoute, RoutesLive, OperationsLive, Shapes, Exclusive, KeysIndexed, Lineage;
    assert s.versions[s.nextId := row].Keys == s.versions.Keys + {s.nextId};
  }

  // ------------------------------------------------------- one lemma a request

  lemma LifecycleKeeps(s: State, r: Request)
    requires Inv(s) && r.Lifecycle?
    ensures Inv(Apply(s, r).state)
  {
    hide Inv, ActiveOperationOn, RequireSafeForRemove, LifecycleSteps, LifecycleMeta;
    var d, kind := r.deployment, r.kind;
    if !kind.OpSwitch? && !(r.key.Some? && r.key.value in s.keyIndex) && LifecycleError(s, d, kind) == None {
      var row := s.deployments[d].(desired := DesiredOnEnqueue(kind));
      PutDeploymentKeeps(s, d, row);
      AddOperationKeeps(s.(deployments := s.deployments[d := row]),
                        NewOperation(kind, None, None, None, Some(d), None, r.key, r.reason, r.requestedBy, LifecycleMeta(r.reason),
                                     LifecycleSteps(kind), r.maxAttempts));
    }
  }

  /** A baseline that passes names an existing target that is not retired, and the source
      is the deployment of the alias's ACTIVE route. That the source is not retired is not
      checked: it follows from the route invariant. */
  lemma BaselineLive(s: State, a: Id, target: Id, expected: Option<Id>, unsafe: bool)
    requires Inv(s) && Baseline(s, a, target, expected, unsafe).Ok?
    ensures var source := Baseline(s, a, target, expected, unsafe).value;
            && source != target && Live(s.deployments, source) && Live(s.deployments, target)
            && (expected.Some? ==> source == expected.value)
            && a in s.aliases
  {
    hide VersionsKnown, RouteRowsKnown, OperationRowsKnown, OperationsLive, OneActiveRoute, Shapes, Exclusive, ArchivedRetired,
      KeysIndexed, Lineage, FreshIds;
    var r := ActiveRoute(s.routes, a).value;
    assert IsActiveRoute(s.routes, r, a);
  }

  /** A switch over a baseline that passed, with its deployments and alias free. */
  lemma CreateSwitchKeeps(s: State, o: Operation)
    requires Inv(s) && WellShaped(o) && o.kind.OpSwitch? && o.aliasId.value in s.aliases
    requires Live(s.deployments, o.source.value) && Live(s.deployments, o.target.value)
    requires !ActiveSwitchOn(s.operations, o.aliasId.value)
    requires !ActiveOperationOn(s.operations, o.source.value) && !ActiveOperationOn(s.operations, o.target.value)
    requires o.key.Some? ==> o.key.value !in s.keyIndex
    requires o.retryOf.Some? ==> o.retryOf.value in s.operations && Inherits(o, s.operations[o.retryOf.value])
    ensures Inv(AddOperation(s, o))
  {
    hide Inv, ActiveSwitchOn, ActiveOperationOn, Live, Inherits;
    assert Touches(o) == {o.source.value, o.target.value};
    AddOperationKeeps(s, o);
  }

  lemma SwitchKeeps(s: State, r: Request)
    requires Inv(s) && r.Switch?
    ensures Inv(Apply(s, r).state)
  {
    hide Inv, Baseline, Live, ActiveSwitchOn, ActiveOperationOn, SwitchMeta, SwitchSteps, Truthy;
    var base := Baseline(s, r.aliasId, r.target, None, false);
    var outcome := EnqueueSwitch(s, r.aliasId, r.target, r.ask, r.timeouts, r.key, r.reason, r.requestedBy, r.maxAttempts);
    if outcome.state != s {
      BaselineLive(s, r.aliasId, r.target, None, false);
      var strategy := if r.ask.AskHot? then Hot else Cold;
      CreateSwitchKeeps(s, NewOperation(OpSwitch, Some(strategy), Some(r.aliasId), Some(base.value), Some(r.target), None, r.key,
                                        r.reason, r.requestedBy, SwitchMeta(strategy, r.timeouts, r.reason),
                                        SwitchSteps(strategy), r.maxAttempts));
    }
  }

  /** The operation a successful retry inserts. */
  function RetryOperation(s: State, id: Id, key: Option<Key>, requestedBy: Option<string>): Operation
    requires id in s.operations && s.operations[id].strategy.Some?
  {
    var o := s.operations[id];
    NewOperation(OpSwitch, o.strategy, o.aliasId, o.source, o.target, Some(id), key, o.reason,
                 if Truthy(requestedBy).Some? then requestedBy else o.requestedBy,
                 RetryMeta(o.meta, o.strategy.value, o.reason), SwitchSteps(o.strategy.value), RetryAttempts(o.job))
  }

  /** When a retry changes the state, it inserts `RetryOperation` and its guards held. */
  lemma RetryInserts(s: State, id: Id, key: Option<Key>, requestedBy: Option<string>)
    requires RetrySwitch(s, id, key, requestedBy).state != s
    ensures id in s.operations && ColdOrHotSwitch(s.operations[id]) && RetryEligible(s.operations[id].status)
    ensures RetrySwitch(s, id, key, requestedBy)
            == Outcome(AddOperation(s, RetryOperation(s, id, key, requestedBy)), Ok(OperationReply(s.nextId)))
    ensures var o := s.operations[id];
            && o.aliasId.Some? && o.source.Some? && o.target.Some?
            && Baseline(s, o.aliasId.value, o.target.value, Some(o.source.value), true).Ok?
            && !ActiveSwitchOn(s.operations, o.aliasId.value)
            && !ActiveOperationOn(s.operations, o.source.value) && !ActiveOperationOn(s.operations, o.target.value)
            && !ActiveRetryOf(s.operations, id)
            && (key.Some? ==> key.value !in s.keyIndex)
  {
    hide Baseline;
  }

  lemma RetryKeeps(s: State, r: Request)
    requires Inv(s) && r.Retry?
    ensures Inv(Apply(s, r).state)
  {
    hide Inv, Baseline, RetrySwitch, Live, ActiveSwitchOn, ActiveOperationOn, ActiveRetryOf, SwitchSteps, Truthy, RetryAttempts;
    if RetrySwitch(s, r.operation, r.key, r.requestedBy).state != s {
      RetryInserts(s, r.operation, r.key, r.requestedBy);
      var o := s.operations[r.operation];
      BaselineLive(s, o.aliasId.value, o.target.value, Some(o.source.value), true);
      CreateSwitchKeeps(s, RetryOperation(s, r.operation, r.key, r.requestedBy));
    }
  }

  lemma CancelKeepsIdentity(o: Operation, reason: Option<string>, now: int)
    ensures var (n, decision) := ApplyCancel(o, reason, now);
            SameIdentity(n, o) && (Active(n.status) ==> Active(o.status))
  {
    hide SkipAll, FailJob;
  }

  lemma CancelKeeps(s: State, r: Request)
    requires Inv(s) && r.Cancel?
    ensures Inv(Apply(s, r).state)
  {
    hide Inv, ApplyCancel;
    if r.operation in s.operations {
      CancelKeepsIdentity(s.operations[r.operation], r.reason, r.now);
      PutOperationKeeps(s, r.operation, ApplyCancel(s.operations[r.operation], r.reason, r.now).0);
    }
  }

  /** A new ACTIVE route of an alias that has none. */
  lemma AddRouteKeeps(s: State, routes: map<Id, Route>, row: Route)
    requires Inv(s) && RoutesGood(s, routes) && Below(routes.Keys, s.nextId) && NoneActive(routes, row.aliasId)
    requires row.aliasId in s.aliases && Live(s.deployments, row.deployment)
    ensures Inv(AddRoute(s, routes, row))
  {
    hide Inv, RoutesGood, NoneActive, Live;
    OnIsGood(s, routes, s.nextId, row);
    assert routes[s.nextId := row].Keys == routes.Keys + {s.nextId};
    RoutesGoodKeeps(s, routes[s.nextId := row], s.routingVersion + 1, s.nextId + 1);
  }

  lemma NoActiveRoute(s: State, a: Id)
    requires Inv(s) && ActiveRoute(s.routes, a) == None
    ensures RoutesGood(s, s.routes) && Below(s.routes.Keys, s.nextId) && NoneActive(s.routes, a)
  {
    hide VersionsKnown, RouteRowsKnown, OperationRowsKnown, OneActiveRoute, RoutesLive, OperationsLive, Shapes, Exclusive,
      ArchivedRetired, KeysIndexed, Lineage, Below;
    forall i | i in s.routes && s.routes[i].aliasId == a ensures !s.routes[i].active {
      assert !IsActiveRoute(s.routes, i, a);
    }
  }

  lemma SetRouteKeeps(s: State, r: Request)
    requires Inv(s) && r.SetRoute?
    ensures Inv(Apply(s, r).state)
  {
    hide Inv, RoutesGood, NoneActive, Below, ActiveRoute, Deactivated, RequestedRewrite;
    var a, d := r.aliasId, r.deployment;
    if RouteTargetError(s, a, d) == None {
      var row := Route(a, d, true, RequestedRewrite(r.rewrite));
      hide RouteTargetError;
      OffIsGood(s, a);
      AddRouteKeeps(s, Deactivated(s.routes, a), row);
      if r.initial && ActiveRoute(s.routes, a) == None {
        NoActiveRoute(s, a);
        AddRouteKeeps(s, s.routes, row);
      }
    }
  }

  lemma WithdrawKeeps(s: State, r: Request)
    requires Inv(s) && r.Withdraw?
    ensures Inv(Apply(s, r).state)
  {
    hide Inv;
    OffIsGood(s, r.aliasId);
    RoutesGoodKeeps(s, Deactivated(s.routes, r.aliasId), s.routingVersion + 1, s.nextId);
  }

  lemma EndpointKeeps(s: State, r: Request)
    requires Inv(s) && (r.NewEndpoint? || r.PatchEndpoint? || r.SetTraffic?)
    ensures Inv(Apply(s, r).state)
  {
    hide Inv;
    match r
    case NewEndpoint(name, api) => AddAliasKeeps(s, Alias(name, api, true, Serving), s.routingVersion + 1);
    case PatchEndpoint(a, enabled) =>
      if a in s.aliases && enabled.Some? {
        PutAliasKeeps(s, a, s.aliases[a].(enabled := enabled.value), s.routingVersion + 1);
      }
    case SetTraffic(a, traffic) =>
      if a in s.aliases {
        PutAliasKeeps(s, a, s.aliases[a].(traffic := traffic), s.routingVersion + 1);
      }
  }

  lemma NewDeploymentKeeps(s: State, r: Request)
    requires Inv(s) && (r.NewManaged? || r.NewImported?)
    ensures Inv(Apply(s, r).state)
  {
    hide Inv;
    if RequireVersion(s, r.version) == None {
      match r
      case NewManaged(name, v, node, container, gpus) =>
        AddDeploymentKeeps(s, Deployment(Strip(name), v, Some(node), true, WantStopped, RtCreated, HsUnknown, Some(Strip(container)), gpus, false));
      case NewImported(name, v, upstream, node) =>
        AddDeploymentKeeps(s, Deployment(Strip(name), v, node, false, WantRunning, RtRunning, HsUnknown, None, [], false));
    }
  }

  lemma RetireRequestKeeps(s: State, r: Request)
    requires Inv(s) && r.Retire?
    ensures Inv(Apply(s, r).state)
  {
    hide Inv;
    var d := r.deployment;
    if d in s.deployments && !s.deployments[d].retired && RetireError(s, d) == None {
      assert RoutesTo(s.routes, d) == {} by {
        assert |RoutesTo(s.routes, d)| == 0;
      }
      PutDeploymentKeeps(s, d, s.deployments[d].(retired := true, desired := WantRemoved));
    }
  }

  lemma ArchiveRequestKeeps(s: State, r: Request)
    requires Inv(s) && r.Archive?
    ensures Inv(Apply(s, r).state)
  {
    hide Inv;
    var v := r.version;
    if v in s.versions && !InUse(s.deployments, v) {
      ArchiveKeeps(s, v);
    }
  }

  /** The operation a cut-over belongs to is active, so what it names is live. */
  lemma CutOverIsLive(s: State, r: Request)
    requires Inv(s) && r.MoveRoute? && Rely(s, r)
    ensures var o := s.operations[r.operation];
            Live(s.deployments, r.deployment) && o.aliasId.Some? && o.aliasId.value in s.aliases
  {
    var o := s.operations[r.operation];
    hide VersionsKnown, RouteRowsKnown, OneActiveRoute, RoutesLive, Exclusive, ArchivedRetired, KeysIndexed, Lineage, FreshIds;
    assert Live(s.deployments, r.deployment) && WellShaped(o);
    assert o.aliasId.value in IdSet(o.aliasId);
  }

  /** A planned row is an INACTIVE one of the alias and the deployment. */
  lemma PlanIsSound(s: State, o: Operation, d: Id)
    ensures var plan := CutOverPlan(s, o, d);
            && (!plan.Stay? ==> o.aliasId.Some? && o.aliasId.value in s.aliases)
            && (plan.Reuse? ==> IsIdleRoute(s.routes, plan.row, o.aliasId.value, d))
  {
    hide ActiveRoute, NewestIdle, Touches, IsIdleRoute;
  }

  /** The routes after a cut-over, before the operation row is written. */
  function Moved(s: State, a: Id, d: Id, row: Option<Id>): State
    requires row.Some? ==> row.value in s.routes
  {
    var off := Deactivated(s.routes, a);
    if row.Some? then s.(routes := off[row.value := off[row.value].(active := true)], routingVersion := s.routingVersion + 1)
    else AddRoute(s, off, Route(a, d, true, None))
  }

  function PlannedRow(plan: Plan): Option<Id> {
    if plan.Reuse? then Some(plan.row) else None
  }

  lemma CutOverShape(s: State, id: Id, d: Id)
    requires id in s.operations
    ensures var o := s.operations[id];
            var plan := CutOverPlan(s, o, d);
            && (plan.Reuse? ==> plan.row in s.routes)
            && (plan.Stay? ==> CutOver(s, id, d) == s)
            && (!plan.Stay? ==>
                  && o.aliasId.Some?
                  && CutOver(s, id, d)
                     == var t := Moved(s, o.aliasId.value, d, PlannedRow(plan));
                        t.(operations := t.operations[id := LeaveRow(o, d, ActiveRoute(s.routes, o.aliasId.value))]))
  {
    PlanIsSound(s, s.operations[id], d);
    hide CutOverPlan, Deactivated, ActiveRoute, LeaveRow;
  }

  lemma MoveRouteKeeps(s: State, r: Request)
    requires Inv(s) && r.MoveRoute? && Rely(s, r)
    ensures Inv(Apply(s, r).state)
  {
    hide Inv, CutOverPlan, CutOver, Live, Touches, ActiveRoute;
    var id, d := r.operation, r.deployment;
    var o := s.operations[id];
    var plan := CutOverPlan(s, o, d);
    CutOverIsLive(s, r);
    PlanIsSound(s, o, d);
    CutOverShape(s, id, d);
    if !plan.Stay? {
      MovedKeeps(s, o.aliasId.value, d, PlannedRow(plan));
      MovedLeavesOperations(s, o.aliasId.value, d, PlannedRow(plan));
      PutOperationKeeps(Moved(s, o.aliasId.value, d, PlannedRow(plan)), id, LeaveRow(o, d, ActiveRoute(s.routes, o.aliasId.value)));
    }
  }

  lemma MovedLeavesOperations(s: State, a: Id, d: Id, row: Option<Id>)
    requires row.Some? ==> row.value in s.routes
    ensures Moved(s, a, d, row).operations == s.operations
  {
  }

  lemma MovedKeeps(s: State, a: Id, d: Id, row: Option<Id>)
    requires Inv(s) && a in s.aliases && Live(s.deployments, d)
    requires row.Some? ==> IsIdleRoute(s.routes, row.value, a, d)
    ensures Inv(Moved(s, a, d, row))
  {
    hide Inv, RoutesGood, NoneActive, Live;
    OffIsGood(s, a);
    var off := Deactivated(s.routes, a);
    if row.Some? {
      var on := off[row.value := off[row.value].(active := true)];
      OnIsGood(s, off, row.value, off[row.value].(active := true));
      assert on.Keys == off.Keys;
      RoutesGoodKeeps(s, on, s.routingVersion + 1, s.nextId);
    } else {
      AddRouteKeeps(s, off, Route(a, d, true, None));
    }
  }

  lemma WorkerKeeps(s: State, r: Request)
    requires Inv(s) && FromWorker(r) && Rely(s, r)
    ensures Inv(Apply(s, r).state)
  {
    hide Inv, SafeToReopen;
    match r
    case Claim(id) =>
      if id in s.operations { PutOperationKeeps(s, id, ClaimOperation(s.operations[id])); }
    case WorkOn(id, status, steps, job, meta) =>
      if id in s.operations { PutOperationKeeps(s, id, UpdateOperation(s.operations[id], status, steps, job, meta)); }
    case Observe(d, desired, runtime, health, gpus) =>
      if d in s.deployments {
        PutDeploymentKeeps(s, d, s.deployments[d].(desired := desired, runtime := runtime, health := health, gpus := gpus));
      }
    case SetTraffic(_, _) => EndpointKeeps(s, r);
    case MoveRoute(_, _) => MoveRouteKeeps(s, r);
    case NewVersion(modelType) => NewVersionKeeps(s, Version(modelType, false));
    case Reopen(id, status) => ReviveKeeps(s, id, ReopenOperation(s.operations[id], status));
  }

  /** Every request, and every worker step that meets the assumption, keeps the invariant. */
  lemma StepKeeps(s: State, r: Request)
    requires Inv(s) && Rely(s, r)
    ensures Inv(Apply(s, r).state)
  {
    hide Inv, Rely, Apply;
    match r
    case Lifecycle(_, _, _, _, _, _) => LifecycleKeeps(s, r);
    case Switch(_, _, _, _, _, _, _, _) => SwitchKeeps(s, r);
    case Retry(_, _, _) => RetryKeeps(s, r);
    case Cancel(_, _, _) => CancelKeeps(s, r);
    case SetRoute(_, _, _, _, _) => SetRouteKeeps(s, r);
    case Withdraw(_, _, _) => WithdrawKeeps(s, r);
    case NewEndpoint(_, _) => EndpointKeeps(s, r);
    case PatchEndpoint(_, _) => EndpointKeeps(s, r);
    case NewManaged(_, _, _, _, _) => NewDeploymentKeeps(s, r);
    case NewImported(_, _, _, _) => NewDeploymentKeeps(s, r);
    case Retire(_) => RetireRequestKeeps(s, r);
    case Archive(_, _) => ArchiveRequestKeeps(s, r);
    case _ => WorkerKeeps(s, r);
  }

  /** The invariant holds after any run, of any length and interleaving. */
  lemma {:induction false} RunKeeps(s: State, rs: seq<Request>)
    requires Inv(s) && Legal(s, rs)
    ensures Inv(Run(s, rs))
    decreases |rs|
  {
    hide Inv, Rely, Apply;
    if rs != [] {
      StepKeeps(s, rs[0]);
      RunKeeps(Apply(s, rs[0]).state, rs[1..]);
    }
  }

  // -------------------------------------------------------- what it amounts to

  ghost predicate Reachable(s: State) {
    exists rs :: Legal(EMPTY_STATE, rs) && Run(EMPTY_STATE, rs) == s
  }

  lemma ReachableIsGood(s: State)
    requires Reachable(s)
    ensures Inv(s)
  {
    hide Inv;
    EmptyIsGood();
    var rs :| Legal(EMPTY_STATE, rs) && Run(EMPTY_STATE, rs) == s;
    RunKeeps(EMPTY_STATE, rs);
  }

  /** In every reachable state two different active operations share no deployment and no
      alias has two active switches; hence an operation has at most one active retry, and
      the partial unique index on active retries can never be violated. */
  lemma ActiveOperationsExclusive(s: State, i: Id, j: Id)
    requires Reachable(s) && i in s.operations && j in s.operations && i != j
    requires Active(s.operations[i].status) && Active(s.operations[j].status)
    ensures Touches(s.operations[i]) !! Touches(s.operations[j])
    ensures s.operations[i].kind.OpSwitch? && s.operations[j].kind.OpSwitch? ==> s.operations[i].aliasId != s.operations[j].aliasId
    ensures s.operations[i].retryOf.Some? ==> s.operations[i].retryOf != s.operations[j].retryOf
  {
    ReachableIsGood(s);
    assert Apart(s.operations[i], s.operations[j]);
  }

  /** In every reachable state an ACTIVE route leads to a deployment that is not retired and
      to a version that is not archived, and so does every active operation. */
  lemma NothingReachesRetired(s: State, d: Id)
    requires Reachable(s)
    requires ActiveOperationOn(s.operations, d) || (exists r :: r in s.routes && s.routes[r].active && s.routes[r].deployment == d)
    ensures d in s.deployments && !s.deployments[d].retired
    ensures s.deployments[d].version in s.versions && !s.versions[s.deployments[d].version].archived
  {
    ReachableIsGood(s);
    GoodDeployments(s);
    hide Inv, Reachable;
    assert Live(s.deployments, d);
  }

  // ----------------------------------------------------------------- reopening

  lemma SafeWhenGood(s: State, id: Id, o: Operation)
    requires id in s.operations && !Active(s.operations[id].status)
    requires SameIdentity(o, s.operations[id]) && o.kind.OpSwitch? && Active(o.status)
    requires Exclusive(s.operations[id := o]) && OperationsLive(s.operations[id := o], s.deployments)
    ensures SafeToReopen(s, id)
  {
    hide Touches, Active;
    SameTouches(o, s.operations[id]);
    var t := s.operations[id := o];
    forall d | d in Touches(o) ensures !ActiveOperationOn(s.operations, d) && Live(s.deployments, d) {
      forall i | i in s.operations && Active(s.operations[i].status) ensures d !in Touches(s.operations[i]) {
        assert Apart(t[i], t[id]);
      }
    }
    forall i | i in s.operations && Active(s.operations[i].status) && s.operations[i].kind.OpSwitch?
      ensures s.operations[i].aliasId != o.aliasId
    {
      assert Apart(t[i], t[id]);
    }
  }

  /** The reconciler reopens an operation without looking at the others. It keeps the
      invariant exactly when no active operation shares a deployment or the alias and
      neither deployment was retired meanwhile. */
  lemma ReopenKeepsIff(s: State, id: Id, status: OpStatus)
    requires Inv(s) && id in s.operations && s.operations[id].status.ManualIntervention? && s.operations[id].kind.OpSwitch?
    requires status.Running? || status.RollingBack?
    ensures Inv(Apply(s, Reopen(id, status)).state) <==> SafeToReopen(s, id)
  {
    hide Inv, SafeToReopen;
    var o := ReopenOperation(s.operations[id], status);
    if SafeToReopen(s, id) {
      ReviveKeeps(s, id, o);
    }
    if Inv(Apply(s, Reopen(id, status)).state) {
      GoodOperations(Apply(s, Reopen(id, status)).state);
      hide Exclusive, OperationsLive, OperationRowsKnown, Shapes, Lineage, KeysIndexed, Below;
      SafeWhenGood(s, id, o);
    }
  }
}
