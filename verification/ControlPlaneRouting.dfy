/** The routing version and the route rows over whole runs: what the gateway may conclude
    from the version alone, and which rows can become ACTIVE again. */
module ControlPlaneRouting {
  import opened Prelude
  import opened ControlPlane
  import opened ControlPlaneInvariants

  /** What the gateway serves for one alias. */
  datatype Published = Published(alias: Alias, targets: set<(Id, Option<string>)>)

  /** The deployments and rewrite names of an alias's ACTIVE routes. */
  function Targets(routes: map<Id, Route>, a: Id): set<(Id, Option<string>)> {
    set r | r in routes && routes[r].active && routes[r].aliasId == a :: (routes[r].deployment, routes[r].rewrite)
  }

  /** The table the gateway sees. */
  function Table(s: State): map<Id, Published> {
    map a | a in s.aliases :: Published(s.aliases[a], Targets(s.routes, a))
  }

  // ------------------------------------------------------------- the version

  /** The later state has a higher version or the same table. */
  predicate Advances(s: State, t: State) {
    s.routingVersion < t.routingVersion || SameTable(s, t)
  }

  /** The steps that write alias or route rows. */
  predicate WritesTable(r: Request) {
    r.SetRoute? || r.Withdraw? || r.NewEndpoint? || r.PatchEndpoint? || r.SetTraffic? || r.MoveRoute?
  }

  predicate SameTable(s: State, t: State) {
    s.routingVersion == t.routingVersion && s.aliases == t.aliases && s.routes == t.routes
  }

  lemma OthersLeaveTable(s: State, r: Request)
    requires !WritesTable(r)
    ensures SameTable(s, Apply(s, r).state)
  {
    match r
    case Retry(id, key, who) => hide RetrySwitch; RetryLeavesTable(s, id, key, who);
    case Switch(a, target, ask, t, key, reason, who, n) =>
      hide EnqueueSwitch; SwitchLeavesTable(s, a, target, ask, t, key, reason, who, n);
    case Lifecycle(_, _, _, _, _, _) => hide LifecycleError, NewOperation;
    case Cancel(_, _, _) => hide ApplyCancel;
    case _ =>
      hide *;
      DeploymentsLeaveTable(s, r);
  }

  lemma DeploymentsLeaveTable(s: State, r: Request)
    requires !WritesTable(r) && !r.Retry? && !r.Switch? && !r.Lifecycle? && !r.Cancel?
    ensures SameTable(s, Apply(s, r).state)
  {
    hide RetireError, RequireVersion, Strip, NameTaken, ContainerTaken, JobSeen, InUse, ReopenOperation, ClaimOperation,
      UpdateOperation, CutOver;
  }

  lemma RetryLeavesTable(s: State, id: Id, key: Option<Key>, who: Option<string>)
    ensures SameTable(s, RetrySwitch(s, id, key, who).state)
  {
    hide RetrySwitch, RetryOperation, SameTable, AddOperation, Baseline;
    if RetrySwitch(s, id, key, who).state != s {
      RetryInserts(s, id, key, who);
      AddingLeavesTable(s, RetryOperation(s, id, key, who));
    } else {
      SameTableItself(s);
    }
  }

  lemma AddingLeavesTable(s: State, o: Operation)
    ensures SameTable(s, AddOperation(s, o))
  {
  }

  lemma SameTableItself(s: State)
    ensures SameTable(s, s)
  {
  }

  lemma CreatingLeavesTable(s: State, a: Id, source: Id, target: Id, strategy: Strategy, reason: Option<string>,
                            who: Option<string>, key: Option<Key>, meta: Meta, n: int, retryOf: Option<Id>)
    ensures SameTable(s, CreateSwitch(s, a, source, target, strategy, reason, who, key, meta, n, retryOf))
  {
    hide NewOperation, SwitchSteps;
  }

  lemma SwitchLeavesTable(s: State, a: Id, target: Id, ask: RequestedStrategy, t: SwitchTimeouts, key: Option<Key>,
                          reason: Option<string>, who: Option<string>, n: int)
    ensures SameTable(s, EnqueueSwitch(s, a, target, ask, t, key, reason, who, n).state)
  {
    hide Baseline, SwitchMeta, ActiveOperationOn, ActiveSwitchOn, CreateSwitch, SameTable, TimeoutsPositive;
    var base := Baseline(s, a, target, None, false);
    if base.Ok? {
      var strategy := if ask.AskHot? then Hot else Cold;
      CreatingLeavesTable(s, a, base.value, target, strategy, reason, who, key, SwitchMeta(strategy, t, reason), n, None);
    }
    SameTableItself(s);
  }

  lemma StepAdvances(s: State, r: Request)
    ensures Advances(s, Apply(s, r).state)
  {
    hide ActiveRoute, Deactivated, RouteTargetError, RequestedRewrite;
    if WritesTable(r) {
    } else {
      OthersLeaveTable(s, r);
      hide Apply;
    }
  }

  lemma {:induction false} RunAdvances(s: State, rs: seq<Request>)
    ensures Advances(s, Run(s, rs))
    decreases |rs|
  {
    hide Apply;
    if rs != [] {
      StepAdvances(s, rs[0]);
      RunAdvances(Apply(s, rs[0]).state, rs[1..]);
    }
  }

  lemma {:induction false} RunAppend(s: State, xs: seq<Request>, ys: seq<Request>)
    ensures Run(s, xs + ys) == Run(Run(s, xs), ys)
    decreases |xs|
  {
    hide Apply;
    if xs == [] {
      assert xs + ys == ys;
    } else {
      assert (xs + ys)[1..] == xs[1..] + ys;
      RunAppend(Apply(s, xs[0]).state, xs[1..], ys);
    }
  }

  /** Two states of one run with the same routing version show the gateway the same table;
      the version never goes back. */
  lemma {:induction false} VersionDeterminesTable(s: State, rs: seq<Request>, i: nat, j: nat)
    requires i <= j <= |rs|
    ensures Run(s, rs[..i]).routingVersion <= Run(s, rs[..j]).routingVersion
    ensures Run(s, rs[..i]).routingVersion == Run(s, rs[..j]).routingVersion ==> Table(Run(s, rs[..i])) == Table(Run(s, rs[..j]))
  {
    hide Apply;
    assert rs[..i] + rs[i..j] == rs[..j];
    RunAppend(s, rs[..i], rs[i..j]);
    RunAdvances(Run(s, rs[..i]), rs[i..j]);
  }

  /** In a reachable state the table has at most one target for each alias. */
  lemma AtMostOneTarget(s: State, a: Id, x: (Id, Option<string>), y: (Id, Option<string>))
    requires Reachable(s) && x in Targets(s.routes, a) && y in Targets(s.routes, a)
    ensures x == y
  {
    ReachableIsGood(s);
    hide Reachable;
    var i :| i in s.routes && s.routes[i].active && s.routes[i].aliasId == a && x == (s.routes[i].deployment, s.routes[i].rewrite);
    var j :| j in s.routes && s.routes[j].active && s.routes[j].aliasId == a && y == (s.routes[j].deployment, s.routes[j].rewrite);
    assert BothActive(s.routes[i], s.routes[j]);
  }

  // ------------------------------------------------------------ the route rows

  /** A row is never deleted and keeps its alias, deployment and rewrite name. */
  predicate SameRow(s: State, t: State, r: Id) {
    r in s.routes ==> r in t.routes && t.routes[r] == s.routes[r].(active := t.routes[r].active)
  }

  lemma StepKeepsRow(s: State, req: Request, r: Id)
    requires Inv(s) && r in s.routes
    ensures SameRow(s, Apply(s, req).state, r)
    ensures !s.routes[r].active && Apply(s, req).state.routes[r].active ==> TurnsOn(s, req, r)
  {
    assert r < s.nextId;
    hide Inv;
    if WritesTable(req) {
      WriterKeepsRow(s, req, r);
    } else {
      OthersLeaveTable(s, req);
    }
    hide Apply;
  }

  /** The step is a cut-over that is to reuse this row. */
  ghost predicate TurnsOn(s: State, req: Request, r: Id) {
    req.MoveRoute? && req.operation in s.operations && CutOverPlan(s, s.operations[req.operation], req.deployment) == Reuse(r)
  }

  lemma WriterKeepsRow(s: State, r: Request, row: Id)
    requires WritesTable(r) && row in s.routes && row < s.nextId
    ensures SameRow(s, Apply(s, r).state, row)
    ensures !s.routes[row].active && Apply(s, r).state.routes[row].active ==> TurnsOn(s, r, row)
  {
    if r.SetRoute? || r.Withdraw? {
      hide *;
      RequestKeepsRow(s, r, row);
    } else if r.MoveRoute? {
      hide *;
      CutOverKeepsRow(s, r, row);
    }
  }

  lemma CutOverKeepsRow(s: State, r: Request, row: Id)
    requires r.MoveRoute? && row in s.routes && row < s.nextId
    ensures SameRow(s, Apply(s, r).state, row)
    ensures !s.routes[row].active ==> (Apply(s, r).state.routes[row].active <==> TurnsOn(s, r, row))
  {
    hide CutOver, CutOverPlan, ActiveRoute, LeaveRow;
    if r.operation in s.operations {
      CutOverShape(s, r.operation, r.deployment);
      MovedRow(s, r.operation, r.deployment, row);
    }
  }

  lemma MovedRow(s: State, id: Id, d: Id, row: Id)
    requires id in s.operations && row in s.routes && row < s.nextId
    requires var plan := CutOverPlan(s, s.operations[id], d); plan.Reuse? ==> plan.row in s.routes
    ensures var plan, o := CutOverPlan(s, s.operations[id], d), s.operations[id];
            o.aliasId.Some? ==>
              var t := Moved(s, o.aliasId.value, d, PlannedRow(plan));
              && SameRow(s, t, row)
              && (!s.routes[row].active ==> (t.routes[row].active <==> plan == Reuse(row)))
  {
    hide CutOverPlan, LeaveRow;
  }

  lemma RequestKeepsRow(s: State, r: Request, row: Id)
    requires (r.SetRoute? || r.Withdraw?) && row in s.routes && row < s.nextId
    ensures SameRow(s, Apply(s, r).state, row) && (Apply(s, r).state.routes[row].active ==> s.routes[row].active)
  {
    hide ActiveRoute, RouteTargetError, RequestedRewrite;
  }

  /** The operation is at work on the row's alias and may bring the row back: it names the
      row's deployment, the alias is not routed there or to a third deployment, and the row is
      the one the operation would take: the row it left, when a hot switch goes back, and
      otherwise the newest INACTIVE one. A hot switch moves only a serving alias, and forward
      only a routed one. */
  ghost predicate BringsBack(s: State, o: Operation, r: Id)
    requires r in s.routes
  {
    var a, d := s.routes[r].aliasId, s.routes[r].deployment;
    && o.kind.OpSwitch? && Claimed(o) && o.aliasId == Some(a) && a in s.aliases && d in Touches(o)
    && (forall x: Id :: IsActiveRoute(s.routes, x, a) ==> s.routes[x].deployment != d && s.routes[x].deployment in Touches(o))
    && (o.strategy == Some(Hot) ==> s.aliases[a].traffic.Serving?)
    && if o.strategy == Some(Hot) && o.source == Some(d) then o.sourceRoute == Some(r)
       else && (forall x: Id :: IsIdleRoute(s.routes, x, a, d) ==> x <= r)
            && (o.strategy == Some(Hot) ==> exists x: Id :: IsActiveRoute(s.routes, x, a))
  }

  /** Some legal step switches an INACTIVE row on, if and only if some operation may bring it
      back. No management request ever does. */
  lemma ReactivatedIff(s: State, r: Id)
    requires Inv(s) && r in s.routes && !s.routes[r].active
    ensures (exists req :: Rely(s, req) && r in Apply(s, req).state.routes && Apply(s, req).state.routes[r].active)
            <==> exists i :: i in s.operations && BringsBack(s, s.operations[i], r)
  {
    hide Inv, Apply, BringsBack, Rely, TurnsOn;
    if exists req :: Rely(s, req) && r in Apply(s, req).state.routes && Apply(s, req).state.routes[r].active {
      var req :| Rely(s, req) && r in Apply(s, req).state.routes && Apply(s, req).state.routes[r].active;
      StepKeepsRow(s, req, r);
      ReuseMeans(s, req, r);
    }
    if exists i :: i in s.operations && BringsBack(s, s.operations[i], r) {
      var i :| i in s.operations && BringsBack(s, s.operations[i], r);
      var req := MoveRoute(i, s.routes[r].deployment);
      BringsBackPlans(s, i, r);
      SmallerThanNext(s, r);
      CutOverKeepsRow(s, req, r);
    }
  }

  lemma SmallerThanNext(s: State, r: Id)
    requires Inv(s) && r in s.routes
    ensures r < s.nextId
  {
  }

  lemma ReuseMeans(s: State, req: Request, r: Id)
    requires Inv(s) && Rely(s, req) && r in s.routes && !s.routes[r].active && TurnsOn(s, req, r)
    ensures req.operation in s.operations && BringsBack(s, s.operations[req.operation], r)
  {
    var o := s.operations[req.operation];
    PlanIsSound(s, o, req.deployment);
    OneActive(s, o.aliasId.value);
    hide Inv, BringsBack;
    PlanMeans(s, o, req.deployment, r);
  }

  lemma PlanMeans(s: State, o: Operation, d: Id, r: Id)
    requires CutOverPlan(s, o, d) == Reuse(r) && o.kind.OpSwitch? && Claimed(o)
    requires o.aliasId.Some? && IsIdleRoute(s.routes, r, o.aliasId.value, d)
    requires forall x: Id :: IsActiveRoute(s.routes, x, o.aliasId.value) ==> ActiveRoute(s.routes, o.aliasId.value) == Some(x)
    ensures BringsBack(s, o, r)
  {
    hide Touches;
  }

  /** The ACTIVE route that is found is the only one. */
  lemma OneActive(s: State, a: Id)
    requires Inv(s)
    ensures forall x: Id :: IsActiveRoute(s.routes, x, a) ==> ActiveRoute(s.routes, a) == Some(x)
  {
    forall x: Id | IsActiveRoute(s.routes, x, a) ensures ActiveRoute(s.routes, a) == Some(x) {
      assert BothActive(s.routes[ActiveRoute(s.routes, a).value], s.routes[x]);
    }
  }

  lemma BringsBackPlans(s: State, i: Id, r: Id)
    requires Inv(s) && r in s.routes && !s.routes[r].active
    requires i in s.operations && BringsBack(s, s.operations[i], r)
    ensures Rely(s, MoveRoute(i, s.routes[r].deployment)) && TurnsOn(s, MoveRoute(i, s.routes[r].deployment), r)
  {
    var o, a, d := s.operations[i], s.routes[r].aliasId, s.routes[r].deployment;
    assert WellShaped(o);
    OneActive(s, a);
    assert IsIdleRoute(s.routes, r, a, d);
    hide Inv, Touches;
  }

  /** What a cut-over does: it reuses a row exactly when the plan is to, and then that one;
      otherwise it adds one row without rewrite name. Either way the alias has that one ACTIVE
      route, to the deployment, and the version moves by one. */
  lemma CutOverEffect(s: State, id: Id, d: Id)
    requires Inv(s) && Rely(s, MoveRoute(id, d)) && !CutOverPlan(s, s.operations[id], d).Stay?
    ensures var plan, t := CutOverPlan(s, s.operations[id], d), CutOver(s, id, d);
            var row := if plan.Reuse? then plan.row else s.nextId;
            && s.operations[id].aliasId.Some?
            && (forall x: Id :: IsActiveRoute(t.routes, x, s.operations[id].aliasId.value) <==> x == row)
            && row in t.routes && t.routes[row].deployment == d && t.routingVersion == s.routingVersion + 1
            && (plan.Reuse? ==> t.routes.Keys == s.routes.Keys)
            && (plan.InsertNew? ==> t.routes.Keys == s.routes.Keys + {row} && row !in s.routes && t.routes[row].rewrite == None)
  {
    hide Inv, CutOver, CutOverPlan, ActiveRoute, LeaveRow, Touches;
    var o := s.operations[id];
    var plan := CutOverPlan(s, o, d);
    PlanIsSound(s, o, d);
    CutOverShape(s, id, d);
    OffIsGood(s, o.aliasId.value);
    hide RoutesGood;
    MovedEffect(s, o.aliasId.value, d, PlannedRow(plan));
  }

  lemma MovedEffect(s: State, a: Id, d: Id, reused: Option<Id>)
    requires reused.Some? ==> IsIdleRoute(s.routes, reused.value, a, d)
    requires Below(s.routes.Keys, s.nextId) && NoneActive(Deactivated(s.routes, a), a)
    ensures var t, row := Moved(s, a, d, reused), if reused.Some? then reused.value else s.nextId;
            && (forall x: Id :: IsActiveRoute(t.routes, x, a) <==> x == row)
            && row in t.routes && t.routes[row].deployment == d && t.routingVersion == s.routingVersion + 1
            && (reused.Some? ==> t.routes.Keys == s.routes.Keys)
            && (reused.None? ==> t.routes.Keys == s.routes.Keys + {row} && row !in s.routes && t.routes[row].rewrite == None)
  {
    hide Deactivated;
    DeactivatedRows(s.routes, a);
    assert s.nextId !in s.routes.Keys;
  }

  lemma DeactivatedRows(routes: map<Id, Route>, a: Id)
    ensures forall x: Id :: x in routes ==>
              Deactivated(routes, a)[x] == if routes[x].aliasId == a then routes[x].(active := false) else routes[x]
  {
  }

  /** When a claimed switch moves its alias forward, or a cold one back, it reuses a row if
      and only if there is an INACTIVE one of that alias and deployment, and then the newest;
      only a hot switch going back takes the row it left, and no other. */
  lemma CutOverReusesIff(s: State, id: Id, d: Id)
    requires Inv(s) && Rely(s, MoveRoute(id, d)) && !CutOverPlan(s, s.operations[id], d).Stay?
    ensures var o, plan := s.operations[id], CutOverPlan(s, s.operations[id], d);
            var back := o.strategy == Some(Hot) && o.source == Some(d);
            && (!back ==> (plan.Reuse? <==> exists x: Id :: IsIdleRoute(s.routes, x, o.aliasId.value, d)))
            && (!back && plan.Reuse? ==>
                  IsIdleRoute(s.routes, plan.row, o.aliasId.value, d)
                  && forall x: Id :: IsIdleRoute(s.routes, x, o.aliasId.value, d) ==> x <= plan.row)
            && (back ==> plan.Reuse? && o.sourceRoute == Some(plan.row))
  {
    hide Inv, ActiveRoute, Touches, IsIdleRoute;
  }

  /** Over any run without cut-overs an INACTIVE row stays INACTIVE; over any run at all it
      keeps its alias, deployment and rewrite name. */
  lemma {:induction false} InactiveStays(s: State, rs: seq<Request>, r: Id)
    requires Inv(s) && Legal(s, rs) && r in s.routes
    ensures SameRow(s, Run(s, rs), r)
    ensures !s.routes[r].active && (forall i :: 0 <= i < |rs| ==> !rs[i].MoveRoute?) ==> !Run(s, rs).routes[r].active
    decreases |rs|
  {
    hide Inv, Apply, Rely;
    if rs != [] {
      StepKeeps(s, rs[0]);
      StepKeepsRow(s, rs[0], r);
      InactiveStays(Apply(s, rs[0]).state, rs[1..], r);
    }
  }

  // --------------------------------------------------------- setting a route

  /** What the gateway may be told to route the alias to: a live deployment that is meant to
      run, runs and is healthy, with a model of the kind the alias serves. */
  predicate Publishable(s: State, a: Id, d: Id) {
    && a in s.aliases && d in s.deployments && s.deployments[d].version in s.versions && !s.deployments[d].retired
    && s.deployments[d].desired.WantRunning? && s.deployments[d].runtime.RtRunning? && s.deployments[d].health.HsHealthy?
    && (s.aliases[a].api.EmbeddingApi? <==> s.versions[s.deployments[d].version].modelType.Embedding?)
  }

  /** The meaning of a route request. It succeeds exactly when the locks are free, the
      deployment may be published and, for an initial publication, the alias has no other
      target; then exactly the replied route is ACTIVE on the alias, to the requested
      deployment, and no other alias is touched. */
  ghost predicate RouteMeans(s: State, after: Outcome, a: Id, d: Id, rewrite: Option<string>, initial: bool, locksFree: bool) {
    && (after.reply.Ok? <==> locksFree && Publishable(s, a, d) && (initial ==> OnlyTarget(s.routes, a, d, rewrite)))
    && (after.reply.Ok? ==> after.reply.value.RouteReply? && RouteSet(s, after.state, a, d, rewrite, initial, after.reply.value))
    && (after.reply.Err? ==> after.state == s)
  }

  ghost predicate OnlyTarget(routes: map<Id, Route>, a: Id, d: Id, rewrite: Option<string>) {
    forall x :: x in Targets(routes, a) ==> x.0 == d && RequestedRewrite(x.1) == RequestedRewrite(rewrite)
  }

  lemma SetRouteReplaces(s: State, a: Id, d: Id, rewrite: Option<string>, initial: bool, locksFree: bool)
    requires Inv(s)
    ensures RouteMeans(s, ActivateRoute(s, a, d, rewrite, initial, locksFree), a, d, rewrite, initial, locksFree)
  {
    RouteReplaced(s, a, d, rewrite, initial, locksFree);
    OneActiveOf(s, a);
    OneTarget(s, a);
    hide Inv, RequestedRewrite, RouteSet, Targets, Compatible, AddRoute, Deactivated;
  }

  /** The targets of an alias are what its ACTIVE route says. */
  lemma OneTarget(s: State, a: Id)
    requires forall i, j :: IsActiveRoute(s.routes, i, a) && IsActiveRoute(s.routes, j, a) ==> i == j
    ensures ActiveRoute(s.routes, a).None? ==> Targets(s.routes, a) == {}
    ensures ActiveRoute(s.routes, a).Some? ==>
              var row := s.routes[ActiveRoute(s.routes, a).value]; Targets(s.routes, a) == {(row.deployment, row.rewrite)}
  {
    if ActiveRoute(s.routes, a).None? {
      forall r | r in s.routes && s.routes[r].active ensures s.routes[r].aliasId != a {
        assert !IsActiveRoute(s.routes, r, a);
      }
    } else {
      var i := ActiveRoute(s.routes, a).value;
      forall r | r in s.routes && s.routes[r].active && s.routes[r].aliasId == a ensures r == i {
        assert IsActiveRoute(s.routes, r, a);
      }
      assert (s.routes[i].deployment, s.routes[i].rewrite) in Targets(s.routes, a);
    }
  }

  lemma RouteReplaced(s: State, a: Id, d: Id, rewrite: Option<string>, initial: bool, locksFree: bool)
    requires Inv(s)
    ensures var o := ActivateRoute(s, a, d, rewrite, initial, locksFree);
            && (o.reply.Ok? ==> o.reply.value.RouteReply? && RouteSet(s, o.state, a, d, rewrite, initial, o.reply.value))
            && (o.reply.Err? ==> o.state == s)
  {
    OneActiveOf(s, a);
    hide Inv, RouteTargetError, RequestedRewrite, RouteSet, Targets;
    var o := ActivateRoute(s, a, d, rewrite, initial, locksFree);
    if o.reply.Ok? && o.reply.value.reused {
      ReusedIsSet(s, a, d, rewrite, o.reply.value);
    } else if o.reply.Ok? {
      var off := Deactivated(s.routes, a);
      if initial {
        NoActiveRoute(s, a);
        AddedIsSet(s, s.routes, a, d, rewrite, initial);
      } else {
        OffIsGood(s, a);
        AddedIsSet(s, off, a, d, rewrite, initial);
      }
    }
  }

  /** The effect of a route request that succeeds. */
  ghost predicate RouteSet(s: State, t: State, a: Id, d: Id, rewrite: Option<string>, initial: bool, reply: Reply)
    requires reply.RouteReply?
  {
    && reply.version == t.routingVersion
    && (forall r :: IsActiveRoute(t.routes, r, a) <==> r == reply.route)
    && reply.route in t.routes && t.routes[reply.route].deployment == d
    && (forall b :: b != a ==> Targets(t.routes, b) == Targets(s.routes, b))
    && (if reply.reused then initial && t == s
        else t.routes[reply.route].rewrite == RequestedRewrite(rewrite) && t.routingVersion == s.routingVersion + 1)
  }

  lemma ReusedIsSet(s: State, a: Id, d: Id, rewrite: Option<string>, reply: Reply)
    requires forall i, j :: IsActiveRoute(s.routes, i, a) && IsActiveRoute(s.routes, j, a) ==> i == j
    requires reply.RouteReply? && reply.reused && reply.version == s.routingVersion
    requires IsActiveRoute(s.routes, reply.route, a) && s.routes[reply.route].deployment == d
    ensures RouteSet(s, s, a, d, rewrite, true, reply)
  {
  }

  lemma AddedIsSet(s: State, routes: map<Id, Route>, a: Id, d: Id, rewrite: Option<string>, initial: bool)
    requires NoneActive(routes, a) && Below(routes.Keys, s.nextId) && routes.Keys == s.routes.Keys
    requires forall r :: r in routes && routes[r].aliasId != a ==> routes[r] == s.routes[r]
    requires forall r :: r in routes ==> routes[r].aliasId == s.routes[r].aliasId
    ensures RouteSet(s, AddRoute(s, routes, Route(a, d, true, RequestedRewrite(rewrite))), a, d, rewrite, initial,
                     RouteReply(s.nextId, s.routingVersion + 1, false))
  {
    hide RequestedRewrite;
    assert s.nextId !in routes;
    var t := AddRoute(s, routes, Route(a, d, true, RequestedRewrite(rewrite)));
    forall b | b != a ensures Targets(t.routes, b) == Targets(s.routes, b) {
      OtherTargets(s.routes, t.routes, b, a);
    }
  }

  lemma OneActiveOf(s: State, a: Id)
    requires Inv(s)
    ensures forall i, j :: IsActiveRoute(s.routes, i, a) && IsActiveRoute(s.routes, j, a) ==> i == j
  {
    forall i, j | IsActiveRoute(s.routes, i, a) && IsActiveRoute(s.routes, j, a) ensures i == j {
      assert BothActive(s.routes[i], s.routes[j]);
    }
  }

  lemma OtherTargets(before: map<Id, Route>, after: map<Id, Route>, b: Id, a: Id)
    requires b != a
    requires forall r :: r in before && before[r].aliasId != a ==> r in after && after[r] == before[r]
    requires forall r :: r in after && after[r].aliasId != a ==> r in before && after[r] == before[r]
    ensures Targets(before, b) == Targets(after, b)
  {
  }

  predicate Blank(rewrite: Option<string>) {
    rewrite.Some? && rewrite.value != "" && Strip(rewrite.value) == ""
  }

  lemma RewriteStable(rewrite: Option<string>)
    ensures RequestedRewrite(RequestedRewrite(rewrite)) == RequestedRewrite(rewrite) <==> !Blank(rewrite)
  {
    hide Strip;
    if Truthy(rewrite).Some? {
      StripTwice(rewrite.value);
    }
  }

  /** An exact retry of an initial publication is recognised and returns the same route,
      if and only if the requested rewrite name was not blank text: blank text is stored as
      the empty name, which compares unlike the request, and the retry conflicts. */
  lemma InitialRetryIff(s: State, a: Id, d: Id, rewrite: Option<string>)
    requires Inv(s) && ActivateRoute(s, a, d, rewrite, true, true).reply.Ok?
    requires !ActivateRoute(s, a, d, rewrite, true, true).reply.value.reused
    ensures var first := ActivateRoute(s, a, d, rewrite, true, true);
            var again := ActivateRoute(first.state, a, d, rewrite, true, true);
            && again.state == first.state
            && again.reply == (if Blank(rewrite) then Err(Conflict(ActiveRouteExists))
                               else Ok(RouteReply(first.reply.value.route, first.state.routingVersion, true)))
  {
    RouteReplaced(s, a, d, rewrite, true, true);
    RewriteStable(rewrite);
    hide Inv, RequestedRewrite, Blank, Targets;
    var t := ActivateRoute(s, a, d, rewrite, true, true).state;
    assert IsActiveRoute(t.routes, s.nextId, a);
    assert RouteTargetError(t, a, d) == RouteTargetError(s, a, d) == None;
    assert ActiveRoute(t.routes, a) == Some(s.nextId);
  }

  /** The meaning of a withdrawal. It succeeds exactly when the locks are free, the alias exists
      and either has no target or the expected one; then the alias has none, the version moves
      exactly when something was withdrawn, and no other alias is touched. */
  ghost predicate WithdrawMeans(s: State, after: Outcome, a: Id, expected: Option<Id>, locksFree: bool) {
    && (after.reply.Ok? <==>
          locksFree && a in s.aliases && forall x :: x in Targets(s.routes, a) ==> expected == Some(x.0))
    && (after.reply.Ok? ==> Withdrawn(s, after.state, a, after.reply.value))
    && (after.reply.Err? ==> after.state == s)
  }

  ghost predicate Withdrawn(s: State, t: State, a: Id, reply: Reply) {
    && Targets(t.routes, a) == {} && (forall b :: b != a ==> Targets(t.routes, b) == Targets(s.routes, b))
    && reply.UnpublishReply? && reply.version == t.routingVersion
    && (reply.changed <==> Targets(s.routes, a) != {})
    && t == s.(routes := t.routes, routingVersion := s.routingVersion + (if reply.changed then 1 else 0))
    && (!reply.changed ==> t == s)
  }

  lemma WithdrawnIff(s: State, a: Id, expected: Option<Id>, locksFree: bool)
    requires Inv(s)
    ensures WithdrawMeans(s, Unpublish(s, a, expected, locksFree), a, expected, locksFree)
  {
    OneActiveOf(s, a);
    OneTarget(s, a);
    NothingLeft(s, a);
    hide Inv, Targets, Deactivated;
  }

  /** Deactivating leaves the alias without targets and the others as they were. */
  lemma NothingLeft(s: State, a: Id)
    ensures Targets(Deactivated(s.routes, a), a) == {}
    ensures forall b :: b != a ==> Targets(Deactivated(s.routes, a), b) == Targets(s.routes, b)
  {
    forall b | b != a ensures Targets(Deactivated(s.routes, a), b) == Targets(s.routes, b) {
      OtherTargets(s.routes, Deactivated(s.routes, a), b, a);
    }
  }

  /** Withdrawing again changes nothing more. */
  lemma WithdrawTwice(s: State, a: Id, expected: Option<Id>, again: Option<Id>)
    requires Inv(s) && Unpublish(s, a, expected, true).reply.Ok?
    ensures var t := Unpublish(s, a, expected, true).state;
            Unpublish(t, a, again, true) == Outcome(t, Ok(UnpublishReply(None, t.routingVersion, false)))
  {
    WithdrawnIff(s, a, expected, true);
    hide Inv, Targets;
    NoTargetIff(Unpublish(s, a, expected, true).state, a);
  }

  lemma NoTargetIff(s: State, a: Id)
    ensures Targets(s.routes, a) == {} <==> ActiveRoute(s.routes, a).None?
  {
    if ActiveRoute(s.routes, a).Some? {
      var i := ActiveRoute(s.routes, a).value;
      assert (s.routes[i].deployment, s.routes[i].rewrite) in Targets(s.routes, a);
    } else {
      forall r | r in s.routes && s.routes[r].active ensures s.routes[r].aliasId != a {
        assert !IsActiveRoute(s.routes, r, a);
      }
    }
  }
}
