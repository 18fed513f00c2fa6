/** What an accepted enqueue, retirement or archiving means for the tables, said without
    the steps that lead there. */
module ControlPlaneEnqueue {
  import opened Prelude
  import opened ControlPlane
  import opened ControlPlaneInvariants
  import opened ControlPlaneLineage

  /** The new operation is the only new row, and no other row but those of `touched` changed. */
  ghost predicate Inserted(s: State, t: State, id: Id, touched: set<Id>) {
    && id == s.nextId && id !in s.operations
    && t.operations.Keys == s.operations.Keys + {id} && (forall i :: i in s.operations ==> t.operations[i] == s.operations[i])
    && t.versions == s.versions && t.aliases == s.aliases && t.routes == s.routes && t.routingVersion == s.routingVersion
    && t.deployments.Keys == s.deployments.Keys
    && (forall d :: d in s.deployments && d !in touched ==> t.deployments[d] == s.deployments[d])
  }

  /** Queued as asked, its job claimable, nothing started, cancelled or inherited. */
  predicate JustQueued(o: Operation, codes: seq<string>, key: Option<Key>, reason: Option<string>, who: Option<string>, n: int) {
    && o.status.Queued? && o.key == key && o.retryOf.None? && o.cancelRequestedAt.None? && o.finishedAt.None?
    && !o.meta.destructive && o.meta.cancelReason.None? && o.meta.transient == map[]
    && o.reason == reason && o.requestedBy == who
    && o.meta.reason == (if reason == Some("") then None else reason)
    && Attempts(o, n) && StepsOf(o, codes)
  }

  /** One step comes before another. */
  predicate Comes(codes: seq<string>, x: string, y: string) {
    exists i, j :: 0 <= i < j < |codes| && codes[i] == x && codes[j] == y
  }

  lemma ComesAt(codes: seq<string>, i: nat, j: nat)
    requires i < j < |codes|
    ensures Comes(codes, codes[i], codes[j])
  {
  }

  /** A cold switch stops the source, after draining, before it starts the target, and moves
      the route only to a target that was probed. */
  lemma ColdStepOrder()
    ensures var c := SwitchSteps(Cold);
            && |c| == 14 && c[0] == "VALIDATE" && c[1] == "PREFLIGHT" && c[2] == "PREPARE_TARGET" && c[13] == "FINALIZE"
            && Comes(c, "PREFLIGHT", "DRAIN_TRAFFIC") && Comes(c, "DRAIN_TRAFFIC", "STOP_SOURCE")
            && Comes(c, "STOP_SOURCE", "WAIT_VRAM_RELEASE") && Comes(c, "WAIT_VRAM_RELEASE", "START_TARGET")
            && Comes(c, "START_TARGET", "WAIT_TARGET_HEALTH") && Comes(c, "WAIT_TARGET_HEALTH", "PROBE_TARGET")
            && Comes(c, "PROBE_TARGET", "ACTIVATE_TARGET_ROUTE") && Comes(c, "ACTIVATE_TARGET_ROUTE", "WAIT_ROUTE_APPLY")
            && Comes(c, "WAIT_ROUTE_APPLY", "RESTORE_TRAFFIC") && Comes(c, "RESTORE_TRAFFIC", "WAIT_TRAFFIC_APPLY")
  {
    hide Comes;
    var c := SwitchSteps(Cold);
    ComesAt(c, 1, 3);
    ComesAt(c, 3, 4);
    ComesAt(c, 4, 5);
    ComesAt(c, 5, 6);
    ComesAt(c, 6, 7);
    ComesAt(c, 7, 8);
    ComesAt(c, 8, 9);
    ComesAt(c, 9, 10);
    ComesAt(c, 10, 11);
    ComesAt(c, 11, 12);
  }

  /** A hot switch does the same with the target, but stops the source only after the route
      has moved and the source has drained. */
  lemma HotStepOrder()
    ensures var h := SwitchSteps(Hot);
            && |h| == 12 && h[0] == "VALIDATE" && h[1] == "PREFLIGHT" && h[2] == "PREPARE_TARGET" && h[11] == "FINALIZE"
            && Comes(h, "PREFLIGHT", "START_TARGET") && Comes(h, "START_TARGET", "WAIT_TARGET_HEALTH")
            && Comes(h, "WAIT_TARGET_HEALTH", "PROBE_TARGET") && Comes(h, "PROBE_TARGET", "ACTIVATE_TARGET_ROUTE")
            && Comes(h, "ACTIVATE_TARGET_ROUTE", "WAIT_ROUTE_APPLY") && Comes(h, "WAIT_ROUTE_APPLY", "WAIT_SOURCE_DRAIN")
            && Comes(h, "WAIT_SOURCE_DRAIN", "STOP_SOURCE") && Comes(h, "STOP_SOURCE", "VERIFY_SOURCE_STOPPED")
  {
    hide Comes;
    var h := SwitchSteps(Hot);
    ComesAt(h, 1, 3);
    ComesAt(h, 3, 4);
    ComesAt(h, 4, 5);
    ComesAt(h, 5, 6);
    ComesAt(h, 6, 7);
    ComesAt(h, 7, 8);
    ComesAt(h, 8, 9);
    ComesAt(h, 9, 10);
  }

  /** What a lifecycle operation wants fits what its steps end with: a probe of something
      running, a container stopped, or one removed. */
  lemma WantedIsDone(kind: OpKind)
    requires !kind.OpSwitch?
    ensures var codes, wanted := LifecycleSteps(kind), DesiredOnEnqueue(kind);
            && codes != []
            && (wanted.WantRunning? <==> codes[|codes| - 1] == "PROBE_INFERENCE")
            && (wanted.WantStopped? <==> codes[|codes| - 1] == "STOP_CONTAINER")
            && (wanted.WantRemoved? <==> codes[|codes| - 1] == "REMOVE_CONTAINER")
            && (kind.OpStart? ==> Comes(codes, "PREPARE_ARTIFACTS", "ENSURE_CONTAINER") && Comes(codes, "ENSURE_CONTAINER", "START_CONTAINER")
                                  && Comes(codes, "START_CONTAINER", "WAIT_HEALTH") && Comes(codes, "WAIT_HEALTH", "PROBE_INFERENCE"))
            && (kind.OpRestart? ==> Comes(codes, "RESTART_CONTAINER", "WAIT_HEALTH") && Comes(codes, "WAIT_HEALTH", "PROBE_INFERENCE"))
            && (kind.OpDelete? ==> Comes(codes, "STOP_CONTAINER", "REMOVE_CONTAINER"))
  {
    hide Comes;
    var codes := LifecycleSteps(kind);
    match kind
    case OpStart =>
      ComesAt(codes, 0, 1);
      ComesAt(codes, 1, 2);
      ComesAt(codes, 2, 3);
      ComesAt(codes, 3, 4);
      assert |codes[4]| == 15;
    case OpStop => assert |codes[0]| == 14;
    case OpRestart =>
      ComesAt(codes, 0, 1);
      ComesAt(codes, 1, 2);
      assert |codes[2]| == 15;
    case OpDelete =>
      ComesAt(codes, 0, 1);
      assert |codes[1]| == 16;
  }

  /** A switch can be enqueued when it is a cold or hot one with positive timeouts, the alias,
      the deployment its ACTIVE route leads to and the target fit together, and nobody is at
      work on the alias or on either deployment. */
  ghost predicate CanSwitch(s: State, a: Id, target: Id, ask: RequestedStrategy, w: SwitchTimeouts) {
    && (ask.AskCold? || ask.AskHot?) && w.drain >= 1 && w.health >= 1 && w.vramRelease >= 1 && w.gatewayApply >= 1
    && exists source :: source in s.deployments && BaselineFacts(s, a, source, target) && NobodyAtWork(s, a, source, target)
  }

  predicate NobodyAtWork(s: State, a: Id, source: Id, target: Id) {
    !ActiveSwitchOn(s.operations, a) && !ActiveOperationOn(s.operations, source) && !ActiveOperationOn(s.operations, target)
  }

  /** The meaning of a switch enqueue. A known key is answered with the operation it belongs
      to. Otherwise, exactly when a switch can be enqueued, one queued switch on the alias is
      inserted, from the deployment its ACTIVE route leads to, to the requested one, with the
      requested strategy, that strategy's steps and the requested timeouts. Nothing else
      changes. */
  ghost predicate SwitchMeans(s: State, after: Outcome, a: Id, target: Id, ask: RequestedStrategy, w: SwitchTimeouts, key: Option<Key>,
                              reason: Option<string>, who: Option<string>, n: int)
  {
    if key.Some? && key.value in s.keyIndex then after == Outcome(s, Ok(OperationReply(s.keyIndex[key.value])))
    else if CanSwitch(s, a, target, ask, w) then
      && after.reply == Ok(OperationReply(s.nextId)) && Inserted(s, after.state, s.nextId, {})
      && SwitchRow(s, after.state.operations[s.nextId], a, target, w)
      && AskedStrategy(after.state.operations[s.nextId], ask)
      && JustQueued(after.state.operations[s.nextId], SwitchSteps(after.state.operations[s.nextId].strategy.value), key, reason, who, n)
      && (key.Some? ==> key.value in after.state.keyIndex && after.state.keyIndex[key.value] == s.nextId)
    else after.reply.Err? && after.state == s
  }

  predicate AskedStrategy(o: Operation, ask: RequestedStrategy) {
    && (o.strategy == Some(Hot) <==> ask.AskHot?) && (o.strategy == Some(Cold) <==> ask.AskCold?)
    && o.meta.strategy == o.strategy
    && (ask.AskHot? ==> o.meta.flags == {HotForward, SourceRetirement})
    && (ask.AskCold? ==> o.meta.flags == {ForwardColdOnly, RollbackNotImplemented})
  }

  lemma SwitchEnqueued(s: State, a: Id, target: Id, ask: RequestedStrategy, w: SwitchTimeouts, key: Option<Key>,
                       reason: Option<string>, who: Option<string>, n: int)
    requires Inv(s)
    ensures SwitchMeans(s, EnqueueSwitch(s, a, target, ask, w, key, reason, who, n), a, target, ask, w, key, reason, who, n)
  {
    if key.None? || key.value !in s.keyIndex {
      SwitchAcceptedIff(s, a, target, ask, w, key, reason, who, n);
      if CanSwitch(s, a, target, ask, w) { SwitchAccepted(s, a, target, ask, w, key, reason, who, n); }
    }
    hide Inv, EnqueueSwitch, CanSwitch, Inserted, SwitchRow, JustQueued;
    SwitchReplays(s, a, target, ask, w, key, reason, who, n);
  }

  lemma SwitchReplays(s: State, a: Id, target: Id, ask: RequestedStrategy, w: SwitchTimeouts, key: Option<Key>,
                      reason: Option<string>, who: Option<string>, n: int)
    ensures key.Some? && key.value in s.keyIndex ==>
              EnqueueSwitch(s, a, target, ask, w, key, reason, who, n) == Outcome(s, Ok(OperationReply(s.keyIndex[key.value])))
  {
    hide Baseline, ActiveOperationOn, ActiveSwitchOn, SwitchMeta, CreateSwitch, TimeoutsPositive;
  }

  /** A new operation takes an identifier. */
  lemma CreatingMoves(s: State, a: Id, source: Id, target: Id, strategy: Strategy, reason: Option<string>,
                      who: Option<string>, key: Option<Key>, meta: Meta, n: int, retryOf: Option<Id>)
    ensures CreateSwitch(s, a, source, target, strategy, reason, who, key, meta, n, retryOf) != s
  {
    hide NewOperation, SwitchSteps;
    assert CreateSwitch(s, a, source, target, strategy, reason, who, key, meta, n, retryOf).nextId == s.nextId + 1;
  }

  lemma SwitchAcceptedIff(s: State, a: Id, target: Id, ask: RequestedStrategy, w: SwitchTimeouts, key: Option<Key>,
                          reason: Option<string>, who: Option<string>, n: int)
    requires Inv(s) && (key.None? || key.value !in s.keyIndex)
    ensures var after := EnqueueSwitch(s, a, target, ask, w, key, reason, who, n);
            if CanSwitch(s, a, target, ask, w) then after.state != s else after.reply.Err? && after.state == s
  {
    hide *;
    CanSwitchMeans(s, a, target, ask, w);
    if CanSwitch(s, a, target, ask, w) {
      FittingSwitch(s, a, target, ask, w, key, reason, who, n);
    } else {
      UnfitSwitch(s, a, target, ask, w, key, reason, who, n);
    }
  }

  lemma CanSwitchMeans(s: State, a: Id, target: Id, ask: RequestedStrategy, w: SwitchTimeouts)
    requires Inv(s)
    ensures CanSwitch(s, a, target, ask, w) <==>
              && (ask.AskCold? || ask.AskHot?) && TimeoutsPositive(w)
              && Baseline(s, a, target, None, false).Ok? && NobodyAtWork(s, a, Baseline(s, a, target, None, false).value, target)
  {
    BaselineMeans(s, a, target);
    forall source | source in s.deployments && BaselineFacts(s, a, source, target)
      ensures Baseline(s, a, target, None, false) == Ok(source)
    {
      FactsSuffice(s, a, source, target);
    }
    if Baseline(s, a, target, None, false).Ok? { SourceIsLive(s, a, Baseline(s, a, target, None, false).value, target); }
    hide Inv, Baseline, BaselineFacts, NobodyAtWork, TimeoutsPositive;
  }

  lemma FittingSwitch(s: State, a: Id, target: Id, ask: RequestedStrategy, w: SwitchTimeouts, key: Option<Key>,
                      reason: Option<string>, who: Option<string>, n: int)
    requires (key.None? || key.value !in s.keyIndex) && (ask.AskCold? || ask.AskHot?) && TimeoutsPositive(w)
    requires Baseline(s, a, target, None, false).Ok? && NobodyAtWork(s, a, Baseline(s, a, target, None, false).value, target)
    ensures EnqueueSwitch(s, a, target, ask, w, key, reason, who, n).state != s
  {
    hide Baseline, ActiveOperationOn, ActiveSwitchOn, SwitchMeta, CreateSwitch, TimeoutsPositive;
    var source, strategy := Baseline(s, a, target, None, false).value, if ask.AskHot? then Hot else Cold;
    CreatingMoves(s, a, source, target, strategy, reason, who, key, SwitchMeta(strategy, w, reason), n, None);
  }

  lemma UnfitSwitch(s: State, a: Id, target: Id, ask: RequestedStrategy, w: SwitchTimeouts, key: Option<Key>,
                    reason: Option<string>, who: Option<string>, n: int)
    requires key.None? || key.value !in s.keyIndex
    requires (ask.AskCold? || ask.AskHot?) && TimeoutsPositive(w) && Baseline(s, a, target, None, false).Ok? ==>
               !NobodyAtWork(s, a, Baseline(s, a, target, None, false).value, target)
    ensures EnqueueSwitch(s, a, target, ask, w, key, reason, who, n).reply.Err?
    ensures EnqueueSwitch(s, a, target, ask, w, key, reason, who, n).state == s
  {
    hide Baseline, ActiveOperationOn, ActiveSwitchOn, SwitchMeta, CreateSwitch, TimeoutsPositive;
  }

  lemma SwitchAccepted(s: State, a: Id, target: Id, ask: RequestedStrategy, w: SwitchTimeouts, key: Option<Key>,
                       reason: Option<string>, who: Option<string>, n: int)
    requires Inv(s) && EnqueueSwitch(s, a, target, ask, w, key, reason, who, n).state != s
    ensures var t := EnqueueSwitch(s, a, target, ask, w, key, reason, who, n).state;
            && EnqueueSwitch(s, a, target, ask, w, key, reason, who, n).reply == Ok(OperationReply(s.nextId))
            && Inserted(s, t, s.nextId, {})
            && SwitchRow(s, t.operations[s.nextId], a, target, w)
            && AskedStrategy(t.operations[s.nextId], ask)
            && JustQueued(t.operations[s.nextId], SwitchSteps(t.operations[s.nextId].strategy.value), key, reason, who, n)
            && (key.Some? ==> key.value in t.keyIndex && t.keyIndex[key.value] == s.nextId)
  {
    hide *;
    SwitchInserts(s, a, target, ask, w, key, reason, who, n);
    var strategy := if ask.AskHot? then Hot else Cold;
    var o := SwitchOperation(s, a, target, strategy, w, key, reason, who, n);
    AddingInserts(s, o);
    BaselineMeans(s, a, target);
    SwitchOperationRow(s, a, target, strategy, w, key, reason, who, n);
    StrategyOf(o, strategy, ask);
  }

  lemma StrategyOf(o: Operation, strategy: Strategy, ask: RequestedStrategy)
    requires o.strategy == o.meta.strategy == Some(strategy) && (strategy.Hot? <==> ask.AskHot?) && (strategy.Cold? <==> ask.AskCold?)
    requires strategy.Hot? ==> o.meta.flags == {HotForward, SourceRetirement}
    requires strategy.Cold? ==> o.meta.flags == {ForwardColdOnly, RollbackNotImplemented}
    ensures AskedStrategy(o, ask)
  {
  }

  /** The operation a successful switch enqueue inserts. */
  ghost function SwitchOperation(s: State, a: Id, target: Id, strategy: Strategy, w: SwitchTimeouts, key: Option<Key>,
                                 reason: Option<string>, who: Option<string>, n: int): Operation
    requires Baseline(s, a, target, None, false).Ok?
  {
    NewOperation(OpSwitch, Some(strategy), Some(a), Some(Baseline(s, a, target, None, false).value), Some(target), None, key, reason, who,
                 SwitchMeta(strategy, w, reason), SwitchSteps(strategy), n)
  }

  lemma SwitchInserts(s: State, a: Id, target: Id, ask: RequestedStrategy, w: SwitchTimeouts, key: Option<Key>,
                      reason: Option<string>, who: Option<string>, n: int)
    requires EnqueueSwitch(s, a, target, ask, w, key, reason, who, n).state != s
    ensures ask.AskHot? || ask.AskCold?
    ensures Baseline(s, a, target, None, false).Ok? && !ActiveSwitchOn(s.operations, a)
    ensures !ActiveOperationOn(s.operations, Baseline(s, a, target, None, false).value) && !ActiveOperationOn(s.operations, target)
    ensures EnqueueSwitch(s, a, target, ask, w, key, reason, who, n)
            == Outcome(AddOperation(s, SwitchOperation(s, a, target, if ask.AskHot? then Hot else Cold, w, key, reason, who, n)),
                       Ok(OperationReply(s.nextId)))
  {
    hide Baseline, ActiveOperationOn, ActiveSwitchOn, SwitchMeta, SwitchSteps, NewOperation, TimeoutsPositive, AddOperation;
  }

  lemma SwitchOperationRow(s: State, a: Id, target: Id, strategy: Strategy, w: SwitchTimeouts, key: Option<Key>,
                           reason: Option<string>, who: Option<string>, n: int)
    requires Baseline(s, a, target, None, false).Ok?
    requires BaselineFacts(s, a, Baseline(s, a, target, None, false).value, target) && !ActiveSwitchOn(s.operations, a)
    requires !ActiveOperationOn(s.operations, Baseline(s, a, target, None, false).value) && !ActiveOperationOn(s.operations, target)
    ensures var o := SwitchOperation(s, a, target, strategy, w, key, reason, who, n);
            SwitchRow(s, o, a, target, w) && o.strategy == Some(strategy) && o.key == key && JustQueued(o, SwitchSteps(strategy), key, reason, who, n)
    ensures var o := SwitchOperation(s, a, target, strategy, w, key, reason, who, n);
            && o.meta.strategy == Some(strategy)
            && (strategy.Hot? ==> o.meta.flags == {HotForward, SourceRetirement})
            && (strategy.Cold? ==> o.meta.flags == {ForwardColdOnly, RollbackNotImplemented})
  {
    hide Baseline, ActiveOperationOn, ActiveSwitchOn, BaselineFacts, SwitchSteps;
  }

  lemma AddingInserts(s: State, o: Operation)
    requires Inv(s)
    ensures var t := AddOperation(s, o);
            && Inserted(s, t, s.nextId, {}) && t.operations[s.nextId] == o
            && (o.key.Some? ==> o.key.value in t.keyIndex && t.keyIndex[o.key.value] == s.nextId)
  {
    GoodOperations(s);
    assert s.nextId !in s.operations;
    hide Inv, OperationsGood, KeysIndexed, Below;
  }

  ghost predicate SwitchRow(s: State, o: Operation, a: Id, target: Id, w: SwitchTimeouts) {
    && o.kind.OpSwitch? && o.strategy.Some? && o.aliasId == Some(a) && o.target == Some(target) && o.source.Some?
    && BaselineFacts(s, a, o.source.value, target)
    && !ActiveSwitchOn(s.operations, a) && !ActiveOperationOn(s.operations, o.source.value) && !ActiveOperationOn(s.operations, target)
    && o.meta.timeouts == Timeouts(Some(w.drain), Some(w.health), Some(w.vramRelease), Some(w.gatewayApply))
  }

  /** What a baseline that passes says about alias, source and target. */
  ghost predicate BaselineFacts(s: State, a: Id, source: Id, target: Id) {
    && a in s.aliases && s.aliases[a].enabled && s.aliases[a].traffic.Serving?
    && (exists r :: IsActiveRoute(s.routes, r, a) && s.routes[r].deployment == source)
    && source != target && Live(s.deployments, source) && Live(s.deployments, target)
    && s.deployments[source].managed && s.deployments[target].managed
    && s.deployments[source].runtime.RtRunning? && s.deployments[source].health.HsHealthy?
    && s.deployments[source].node.Some? && s.deployments[source].node == s.deployments[target].node
    && s.deployments[target].gpus != []
    && s.deployments[target].version in s.versions
    && (s.aliases[a].api.EmbeddingApi? <==> s.versions[s.deployments[target].version].modelType.Embedding?)
  }

  lemma BaselineMeans(s: State, a: Id, target: Id)
    requires Inv(s)
    ensures Baseline(s, a, target, None, false).Ok? <==>
              exists source :: source in s.deployments && BaselineFacts(s, a, source, target)
    ensures Baseline(s, a, target, None, false).Ok? ==> BaselineFacts(s, a, Baseline(s, a, target, None, false).value, target)
  {
    if Baseline(s, a, target, None, false).Ok? {
      BaselineLive(s, a, target, None, false);
      hide Inv, Live, Compatible;
      assert IsActiveRoute(s.routes, ActiveRoute(s.routes, a).value, a);
    }
    forall source | source in s.deployments && BaselineFacts(s, a, source, target) ensures Baseline(s, a, target, None, false).Ok? {
      FactsSuffice(s, a, source, target);
    }
  }

  lemma FactsSuffice(s: State, a: Id, source: Id, target: Id)
    requires Inv(s) && BaselineFacts(s, a, source, target)
    ensures Baseline(s, a, target, None, false) == Ok(source)
  {
    var r :| IsActiveRoute(s.routes, r, a) && s.routes[r].deployment == source;
    TheActiveRoute(s, a, r);
    hide Inv, ActiveRoute, Compatible;
  }

  lemma TheActiveRoute(s: State, a: Id, r: Id)
    requires Inv(s) && IsActiveRoute(s.routes, r, a)
    ensures ActiveRoute(s.routes, a) == Some(r)
  {
    var x := ActiveRoute(s.routes, a).value;
    assert BothActive(s.routes[x], s.routes[r]);
  }

  /** A lifecycle operation can be enqueued on a live managed deployment on a node, with a
      container, that nobody is at work on; a removal only without ACTIVE route and when it
      does not run. */
  ghost predicate CanEnqueue(s: State, d: Id, kind: OpKind) {
    && Live(s.deployments, d) && s.deployments[d].managed && s.deployments[d].node.Some?
    && s.deployments[d].container.Some? && s.deployments[d].container.value != ""
    && !ActiveOperationOn(s.operations, d)
    && (kind.OpDelete? ==> RoutesTo(s.routes, d) == {} && !s.deployments[d].runtime.RtRunning? && !s.deployments[d].health.HsStarting?)
  }

  /** The meaning of a lifecycle enqueue. A known key is answered with the operation it
      belongs to. Otherwise, exactly when an operation can be enqueued, one queued operation
      on the deployment alone is inserted, and what the deployment is meant to be is set. */
  ghost predicate LifecycleMeans(s: State, after: Outcome, d: Id, kind: OpKind, key: Option<Key>, reason: Option<string>,
                                 who: Option<string>, n: int)
  {
    if !kind.OpSwitch? && key.Some? && key.value in s.keyIndex then after == Outcome(s, Ok(OperationReply(s.keyIndex[key.value])))
    else if !kind.OpSwitch? && CanEnqueue(s, d, kind) then
      && after.reply == Ok(OperationReply(s.nextId)) && Inserted(s, after.state, s.nextId, {d})
      && LifecycleRow(after.state.operations[s.nextId], d, kind, key, reason, who, n)
      && Wanted(s.deployments[d], after.state.deployments[d], kind)
    else after.reply.Err? && after.state == s
  }

  predicate LifecycleRow(o: Operation, d: Id, kind: OpKind, key: Option<Key>, reason: Option<string>, who: Option<string>, n: int)
    requires !kind.OpSwitch?
  {
    && o.kind == kind && o.target == Some(d) && o.source.None? && o.aliasId.None? && o.strategy.None?
    && JustQueued(o, LifecycleSteps(kind), key, reason, who, n)
  }

  /** Only what the deployment is meant to be has changed. */
  predicate Wanted(was: Deployment, row: Deployment, kind: OpKind) {
    && row == was.(desired := row.desired)
    && (row.desired.WantRunning? <==> kind.OpStart? || kind.OpRestart?)
    && (row.desired.WantStopped? <==> kind.OpStop?)
    && (row.desired.WantRemoved? <==> kind.OpDelete?)
  }

  lemma LifecycleEnqueued(s: State, d: Id, kind: OpKind, key: Option<Key>, reason: Option<string>, who: Option<string>, n: int)
    requires Inv(s)
    ensures LifecycleMeans(s, EnqueueLifecycle(s, d, kind, key, reason, who, n), d, kind, key, reason, who, n)
  {
    LifecycleAcceptedIff(s, d, kind, key, reason, who, n);
    hide Inv, Inserted, LifecycleRow, CanEnqueue, EnqueueLifecycle;
    if !kind.OpSwitch? && CanEnqueue(s, d, kind) && (key.None? || key.value !in s.keyIndex) {
      LifecycleInserts(s, d, kind, key, reason, who, n);
      AddingToInserts(s, d, LifecycleOperation(d, kind, key, reason, who, n), DesiredOnEnqueue(kind));
      LifecycleRowAdded(d, kind, key, reason, who, n);
    }
  }

  lemma LifecycleAcceptedIff(s: State, d: Id, kind: OpKind, key: Option<Key>, reason: Option<string>, who: Option<string>, n: int)
    ensures var after := EnqueueLifecycle(s, d, kind, key, reason, who, n);
            if !kind.OpSwitch? && key.Some? && key.value in s.keyIndex then after == Outcome(s, Ok(OperationReply(s.keyIndex[key.value])))
            else if !kind.OpSwitch? && CanEnqueue(s, d, kind) then after.state != s && d in s.deployments
            else after.reply.Err? && after.state == s
  {
    hide ActiveOperationOn, LifecycleSteps, LifecycleMeta, DesiredOnEnqueue, NewOperation;
    assert |RoutesTo(s.routes, d)| == 0 <==> RoutesTo(s.routes, d) == {};
    assert kind.OpSwitch? || (LifecycleError(s, d, kind) == None <==> CanEnqueue(s, d, kind));
  }

  /** The operation a successful lifecycle enqueue inserts. */
  function LifecycleOperation(d: Id, kind: OpKind, key: Option<Key>, reason: Option<string>, who: Option<string>, n: int): Operation
    requires !kind.OpSwitch?
  {
    NewOperation(kind, None, None, None, Some(d), None, key, reason, who, LifecycleMeta(reason), LifecycleSteps(kind), n)
  }

  lemma LifecycleInserts(s: State, d: Id, kind: OpKind, key: Option<Key>, reason: Option<string>, who: Option<string>, n: int)
    requires EnqueueLifecycle(s, d, kind, key, reason, who, n).state != s
    ensures !kind.OpSwitch? && Live(s.deployments, d) && s.deployments[d].managed && !ActiveOperationOn(s.operations, d)
    ensures kind.OpDelete? ==> RoutesTo(s.routes, d) == {} && !StillUp(s.deployments[d])
    ensures EnqueueLifecycle(s, d, kind, key, reason, who, n)
            == Outcome(AddOperation(s.(deployments := s.deployments[d := s.deployments[d].(desired := DesiredOnEnqueue(kind))]),
                                    LifecycleOperation(d, kind, key, reason, who, n)), Ok(OperationReply(s.nextId)))
  {
    hide ActiveOperationOn, LifecycleSteps, LifecycleMeta, StillUp, DesiredOnEnqueue, AddOperation, NewOperation;
    assert LifecycleError(s, d, kind) == None;
    assert kind.OpDelete? ==> |RoutesTo(s.routes, d)| == 0;
  }

  lemma LifecycleRowAdded(d: Id, kind: OpKind, key: Option<Key>, reason: Option<string>, who: Option<string>, n: int)
    requires !kind.OpSwitch?
    ensures LifecycleRow(LifecycleOperation(d, kind, key, reason, who, n), d, kind, key, reason, who, n)
  {
    hide LifecycleSteps;
  }

  lemma AddingToInserts(s: State, d: Id, o: Operation, desired: DesiredState)
    requires Inv(s) && d in s.deployments
    ensures var u := s.(deployments := s.deployments[d := s.deployments[d].(desired := desired)]);
            var t := AddOperation(u, o);
            Inserted(s, t, s.nextId, {d}) && t.operations[s.nextId] == o && t.deployments == u.deployments
  {
    GoodOperations(s);
    assert s.nextId !in s.operations;
    hide Inv, OperationsGood, KeysIndexed, Below;
  }

  /** Sending an accepted enqueue again under its key, after any run in between, changes
      nothing and names the same operation, whatever else the second request says. */
  lemma {:induction false} EnqueueReplays(s: State, r: Request, rs: seq<Request>, again: Request)
    requires Inv(s) && (r.Lifecycle? || r.Switch?) && Apply(s, r).state != s && r.key.Some?
    requires (again.Lifecycle? && !again.kind.OpSwitch?) || again.Switch?
    requires again.key == r.key
    ensures Apply(s, r).reply == Ok(OperationReply(s.nextId))
    ensures var t := Run(Apply(s, r).state, rs); Apply(t, again) == Outcome(t, Ok(OperationReply(s.nextId)))
  {
    KeyIsTaken(s, r);
    hide Inv, Apply;
    RunKeepsKey(Apply(s, r).state, rs, r.key.value);
    KnownKeyReplays(Run(Apply(s, r).state, rs), again, s.nextId);
  }

  /** A key that is taken stays with its operation over any run. */
  lemma {:induction false} RunKeepsKey(s: State, rs: seq<Request>, key: Key)
    requires key in s.keyIndex
    ensures key in Run(s, rs).keyIndex && Run(s, rs).keyIndex[key] == s.keyIndex[key]
    decreases |rs|
  {
    hide Apply;
    if rs != [] {
      StepKeepsKey(s, rs[0], key);
      RunKeepsKey(Apply(s, rs[0]).state, rs[1..], key);
    }
  }

  lemma StepKeepsKey(s: State, r: Request, key: Key)
    requires key in s.keyIndex
    ensures key in Apply(s, r).state.keyIndex && Apply(s, r).state.keyIndex[key] == s.keyIndex[key]
  {
    match r
    case Retry(id, k, who) =>
      hide RetrySwitch, RetryOperation;
      if RetrySwitch(s, id, k, who).state != s {
        RetryInserts(s, id, k, who);
        RetryKeepsKey(s, id, k, who);
      }
    case Switch(a, target, ask, t, k, reason, who, n) =>
      hide EnqueueSwitch, SwitchOperation;
      if EnqueueSwitch(s, a, target, ask, t, k, reason, who, n).state != s {
        SwitchInserts(s, a, target, ask, t, k, reason, who, n);
        SwitchReplays(s, a, target, ask, t, k, reason, who, n);
        SwitchKeepsKey(s, a, target, if ask.AskHot? then Hot else Cold, t, k, reason, who, n);
      }
    case Lifecycle(d, kind, k, reason, who, n) =>
      hide EnqueueLifecycle, LifecycleOperation, CanEnqueue;
      if EnqueueLifecycle(s, d, kind, k, reason, who, n).state != s {
        LifecycleInserts(s, d, kind, k, reason, who, n);
        LifecycleAcceptedIff(s, d, kind, k, reason, who, n);
        LifecycleRowAdded(d, kind, k, reason, who, n);
      }
    case _ => hide *; OthersLeaveKeys(s, r);
  }

  lemma SwitchKeepsKey(s: State, a: Id, target: Id, strategy: Strategy, w: SwitchTimeouts, key: Option<Key>,
                       reason: Option<string>, who: Option<string>, n: int)
    requires Baseline(s, a, target, None, false).Ok?
    ensures SwitchOperation(s, a, target, strategy, w, key, reason, who, n).key == key
  {
    hide Baseline, SwitchSteps, SwitchMeta;
  }

  lemma OthersLeaveKeys(s: State, r: Request)
    requires !r.Retry? && !r.Switch? && !r.Lifecycle?
    ensures Apply(s, r).state.keyIndex == s.keyIndex
  {
    hide Apply;
    if FromWorker(r) {
      WorkerLeavesKeys(s, r);
    } else if r.SetRoute? || r.Withdraw? || r.Cancel? {
      WritersLeaveKeys(s, r);
    } else {
      CreatorsLeaveKeys(s, r);
    }
  }

  lemma WorkerLeavesKeys(s: State, r: Request)
    requires FromWorker(r)
    ensures Apply(s, r).state.keyIndex == s.keyIndex
  {
    hide Deactivated, CutOverPlan, ActiveRoute, LeaveRow, ReopenOperation, ClaimOperation, UpdateOperation;
  }

  lemma WritersLeaveKeys(s: State, r: Request)
    requires r.SetRoute? || r.Withdraw? || r.Cancel?
    ensures Apply(s, r).state.keyIndex == s.keyIndex
  {
    hide ActiveRoute, Deactivated, RouteTargetError, RequestedRewrite, ApplyCancel;
  }

  lemma CreatorsLeaveKeys(s: State, r: Request)
    requires r.NewEndpoint? || r.PatchEndpoint? || r.NewManaged? || r.NewImported? || r.Retire? || r.Archive?
    ensures Apply(s, r).state.keyIndex == s.keyIndex
  {
    hide Strip, NameTaken, ContainerTaken, RequireVersion, RetireError, InUse, JobSeen, AliasTaken;
  }

  lemma KeyIsTaken(s: State, r: Request)
    requires (r.Lifecycle? || r.Switch?) && Apply(s, r).state != s && r.key.Some?
    ensures Apply(s, r).reply == Ok(OperationReply(s.nextId))
    ensures r.key.value in Apply(s, r).state.keyIndex && Apply(s, r).state.keyIndex[r.key.value] == s.nextId
  {
    hide Baseline, ActiveOperationOn, ActiveSwitchOn, SwitchMeta, LifecycleError, SwitchSteps, LifecycleMeta, LifecycleSteps, PendingSteps;
  }

  lemma KnownKeyReplays(s: State, r: Request, id: Id)
    requires (r.Lifecycle? && !r.kind.OpSwitch?) || r.Switch?
    requires r.key.Some? && r.key.value in s.keyIndex && s.keyIndex[r.key.value] == id
    ensures Apply(s, r) == Outcome(s, Ok(OperationReply(id)))
  {
    hide Baseline, ActiveOperationOn, ActiveSwitchOn, SwitchMeta, LifecycleError, NewOperation, CreateSwitch;
  }

  // --------------------------------------------------------------------- retry

  /** Alias, source and target of the original still fit together as for a new switch. */
  ghost predicate RetryFits(s: State, o: Operation)
    requires o.aliasId.Some? && o.source.Some? && o.target.Some?
  {
    && BaselineFacts(s, o.aliasId.value, o.source.value, o.target.value)
    && NobodyAtWork(s, o.aliasId.value, o.source.value, o.target.value)
    && (o.strategy == Some(Hot) ==>
          s.deployments[o.source.value].desired.WantRunning? && s.deployments[o.target.value].desired.WantRunning?)
  }

  /** A switch can be retried when it ended FAILED or ROLLED_BACK, not past the destructive
      boundary when it failed, is not being retried, and still fits; a hot one
      also needs both deployments to be meant to run. */
  ghost predicate CanRetry(s: State, id: Id) {
    && id in s.operations && ColdOrHotSwitch(s.operations[id]) && RetryEligible(s.operations[id].status)
    && !(s.operations[id].status.Failed? && s.operations[id].meta.destructive) && !ActiveRetryOf(s.operations, id)
    && s.operations[id].aliasId.Some? && s.operations[id].source.Some? && s.operations[id].target.Some?
    && RetryFits(s, s.operations[id])
  }

  /** The meaning of a retry. A known key is answered with its operation if that retries the
      same original, and refused otherwise. Without it, exactly when the original can be
      retried, one fresh switch under it is inserted and nothing else changes. */
  ghost predicate RetryMeans(s: State, after: Outcome, id: Id, key: Option<Key>, who: Option<string>) {
    if key.Some? && key.value in s.keyIndex then
      && after.state == s
      && (if s.keyIndex[key.value] in s.operations && s.operations[s.keyIndex[key.value]].retryOf == Some(id)
          then after.reply == Ok(OperationReply(s.keyIndex[key.value])) else after.reply == Err(Conflict(IdempotencyKeyConflict)))
    else if CanRetry(s, id) then
      && after.reply == Ok(OperationReply(s.nextId)) && Inserted(s, after.state, s.nextId, {})
      && Renewed(after.state.operations[s.nextId], s.operations[id], id, key, who)
      && (key.Some? ==> key.value in after.state.keyIndex && after.state.keyIndex[key.value] == s.nextId)
    else after.reply.Err? && after.state == s
  }

  lemma RetryEnqueued(s: State, id: Id, key: Option<Key>, who: Option<string>)
    requires Inv(s)
    ensures RetryMeans(s, RetrySwitch(s, id, key, who), id, key, who)
  {
    RetryAcceptedIff(s, id, key, who);
    if CanRetry(s, id) && (key.None? || key.value !in s.keyIndex) {
      RetryInserts(s, id, key, who);
      AddingInserts(s, RetryOperation(s, id, key, who));
      RetryIsRenewed(s, id, key, who);
      RetryKeepsKey(s, id, key, who);
    }
    hide Inv, RetrySwitch, CanRetry, Inserted, Renewed, RetryOperation, AddOperation;
  }

  lemma RetryKeepsKey(s: State, id: Id, key: Option<Key>, who: Option<string>)
    requires id in s.operations && ColdOrHotSwitch(s.operations[id])
    ensures RetryOperation(s, id, key, who).key == key
  {
    hide SwitchSteps, RetryMeta;
  }

  lemma RetryAcceptedIff(s: State, id: Id, key: Option<Key>, who: Option<string>)
    requires Inv(s)
    ensures var after := RetrySwitch(s, id, key, who);
            if key.Some? && key.value in s.keyIndex then
              && after.state == s
              && (if s.keyIndex[key.value] in s.operations && s.operations[s.keyIndex[key.value]].retryOf == Some(id)
                  then after.reply == Ok(OperationReply(s.keyIndex[key.value])) else after.reply == Err(Conflict(IdempotencyKeyConflict)))
            else if CanRetry(s, id) then after.state != s
            else after.reply.Err? && after.state == s
  {
    OriginalPassesIff(s, id);
    hide Inv, CanRetry, RetryOriginalError, Baseline, ActiveSwitchOn, ActiveOperationOn, CreateSwitch, RetryMeta, RetryBaselineError, RetryAttempts;
    if key.None? || key.value !in s.keyIndex {
      if RetryOriginalError(s, id) == None {
        PassedRetry(s, id, key, who);
      } else {
        OriginalRefused(s, id, key, who);
      }
    }
  }

  lemma OriginalPassesIff(s: State, id: Id)
    ensures CanRetry(s, id) ==> RetryOriginalError(s, id) == None
    ensures RetryOriginalError(s, id) == None ==>
              id in s.operations && ColdOrHotSwitch(s.operations[id])
              && s.operations[id].aliasId.Some? && s.operations[id].source.Some? && s.operations[id].target.Some?
              && (CanRetry(s, id) <==> RetryFits(s, s.operations[id]))
  {
    hide RetryFits, ActiveRetryOf;
  }

  lemma OriginalRefused(s: State, id: Id, key: Option<Key>, who: Option<string>)
    requires RetryOriginalError(s, id).Some? && (key.None? || key.value !in s.keyIndex)
    ensures RetrySwitch(s, id, key, who) == Outcome(s, Err(RetryOriginalError(s, id).value))
  {
    hide RetryOriginalError;
  }

  lemma PassedRetry(s: State, id: Id, key: Option<Key>, who: Option<string>)
    requires Inv(s) && RetryOriginalError(s, id) == None && (key.None? || key.value !in s.keyIndex)
    ensures if CanRetry(s, id) then RetrySwitch(s, id, key, who).state != s
            else RetrySwitch(s, id, key, who).reply.Err? && RetrySwitch(s, id, key, who).state == s
  {
    hide *;
    OriginalPassesIff(s, id);
    var o := s.operations[id];
    ExpectedBaselineMeans(s, o.aliasId.value, o.target.value, o.source.value);
    FitsMeans(s, o);
    if CanRetry(s, id) { FittingRetry(s, id, key, who); } else { UnfitRetry(s, id, key, who); }
  }

  lemma FitsMeans(s: State, o: Operation)
    requires o.aliasId.Some? && o.source.Some? && o.target.Some?
    ensures RetryFits(s, o) <==>
              && BaselineFacts(s, o.aliasId.value, o.source.value, o.target.value)
              && NobodyAtWork(s, o.aliasId.value, o.source.value, o.target.value)
              && (o.strategy == Some(Hot) ==> o.source.value in s.deployments && o.target.value in s.deployments && BothWanted(s, o))
  {
    SourceIsLive(s, o.aliasId.value, o.source.value, o.target.value);
    hide BaselineFacts, NobodyAtWork;
  }

  predicate BothWanted(s: State, o: Operation)
    requires o.source.Some? && o.target.Some? && o.source.value in s.deployments && o.target.value in s.deployments
  {
    s.deployments[o.source.value].desired.WantRunning? && s.deployments[o.target.value].desired.WantRunning?
  }

  lemma FittingRetry(s: State, id: Id, key: Option<Key>, who: Option<string>)
    requires RetryOriginalError(s, id) == None && (key.None? || key.value !in s.keyIndex)
    requires id in s.operations && ColdOrHotSwitch(s.operations[id])
    requires s.operations[id].aliasId.Some? && s.operations[id].source.Some? && s.operations[id].target.Some?
    requires var o := s.operations[id];
             && Baseline(s, o.aliasId.value, o.target.value, Some(o.source.value), true).Ok?
             && NobodyAtWork(s, o.aliasId.value, o.source.value, o.target.value)
             && (o.strategy == Some(Hot) ==> o.source.value in s.deployments && o.target.value in s.deployments && BothWanted(s, o))
    ensures RetrySwitch(s, id, key, who).state != s
  {
    hide Baseline, RetryOriginalError, RetryBaselineError, ActiveSwitchOn, ActiveOperationOn, CreateSwitch, RetryMeta, Truthy, RetryAttempts;
    var o := s.operations[id];
    CreatingMoves(s, o.aliasId.value, o.source.value, o.target.value, o.strategy.value, o.reason,
                  if Truthy(who).Some? then who else o.requestedBy, key, RetryMeta(o.meta, o.strategy.value, o.reason), RetryAttempts(o.job), Some(id));
  }

  lemma UnfitRetry(s: State, id: Id, key: Option<Key>, who: Option<string>)
    requires RetryOriginalError(s, id) == None && (key.None? || key.value !in s.keyIndex)
    requires id in s.operations && ColdOrHotSwitch(s.operations[id])
    requires s.operations[id].aliasId.Some? && s.operations[id].source.Some? && s.operations[id].target.Some?
    requires var o := s.operations[id];
             Baseline(s, o.aliasId.value, o.target.value, Some(o.source.value), true).Ok? ==>
               && o.source.value in s.deployments && o.target.value in s.deployments
               && !(NobodyAtWork(s, o.aliasId.value, o.source.value, o.target.value) && (o.strategy == Some(Hot) ==> BothWanted(s, o)))
    ensures RetrySwitch(s, id, key, who).reply.Err? && RetrySwitch(s, id, key, who).state == s
  {
    hide Baseline, RetryOriginalError, RetryBaselineError, ActiveSwitchOn, ActiveOperationOn, CreateSwitch, RetryMeta, Truthy, RetryAttempts;
  }

  lemma ExpectedBaselineMeans(s: State, a: Id, target: Id, source: Id)
    requires Inv(s)
    ensures Baseline(s, a, target, Some(source), true).Ok? <==> BaselineFacts(s, a, source, target)
    ensures BaselineFacts(s, a, source, target) ==> source in s.deployments && target in s.deployments
  {
    BaselineMeans(s, a, target);
    if BaselineFacts(s, a, source, target) { FactsSuffice(s, a, source, target); }
    hide Inv, Compatible, BaselineFacts;
    assert Baseline(s, a, target, Some(source), true).Ok? <==> Baseline(s, a, target, None, false) == Ok(source);
    SourceIsLive(s, a, source, target);
  }

  lemma SourceIsLive(s: State, a: Id, source: Id, target: Id)
    ensures BaselineFacts(s, a, source, target) ==> source in s.deployments && target in s.deployments
  {
  }

  // ------------------------------------------------------- retiring and archiving

  /** The meaning of a retirement. A live deployment is retired exactly when no ACTIVE route
      and no active operation reaches it and, if managed, it does not run; afterwards it is
      wanted removed and nothing else changed. Retiring it again changes nothing. */
  ghost predicate RetireMeans(s: State, after: Outcome, d: Id) {
    if d !in s.deployments then after == Outcome(s, Err(NotFound))
    else if s.deployments[d].retired then after == Outcome(s, Ok(RowReply(d)))
    else if RoutesTo(s.routes, d) == {} && !ActiveOperationOn(s.operations, d) && !(s.deployments[d].managed && (s.deployments[d].runtime.RtRunning? || s.deployments[d].health.HsStarting?)) then
      after == Outcome(s.(deployments := s.deployments[d := s.deployments[d].(retired := true, desired := WantRemoved)]), Ok(RowReply(d)))
    else after.reply.Err? && after.state == s
  }

  lemma RetireIff(s: State, d: Id)
    ensures RetireMeans(s, RetireDeployment(s, d), d)
  {
    hide ActiveOperationOn;
    assert |RoutesTo(s.routes, d)| == 0 <==> RoutesTo(s.routes, d) == {};
  }

  /** The meaning of archiving. A version is archived exactly when all its deployments are
      retired and none of the jobs that are looked at is one of its own; from then on no
      request can give it a deployment. Archiving it again changes nothing. */
  ghost predicate ArchiveMeans(s: State, after: Outcome, v: Id, jobs: seq<Option<Id>>) {
    && (after.reply.Ok? <==>
          v in s.versions
          && (s.versions[v].archived
              || ((forall i :: 0 <= i < |jobs| && i < 20 ==> jobs[i] != Some(v))
                  && forall d :: d in s.deployments && s.deployments[d].version == v ==> s.deployments[d].retired)))
    && (after.reply.Ok? ==>
          && after.reply.value == RowReply(v)
          && after.state == s.(versions := s.versions[v := s.versions[v].(archived := true)]) && TakesNoMore(after.state, v))
    && (after.reply.Err? ==> after.state == s)
  }

  ghost predicate TakesNoMore(t: State, v: Id) {
    && (forall name, node, container, gpus :: CreateManaged(t, name, v, node, container, gpus).reply.Err?)
    && (forall name, upstream, node :: ImportDeployment(t, name, v, upstream, node).reply.Err?)
  }

  lemma ArchiveIff(s: State, v: Id, jobs: seq<Option<Id>>)
    ensures ArchiveMeans(s, ArchiveVersion(s, v, jobs), v, jobs)
  {
    hide TakesNoMore;
    if v in s.versions {
      ArchivedTakesNoMore(s.(versions := s.versions[v := s.versions[v].(archived := true)]), v);
      if s.versions[v].archived {
        assert s.versions == s.versions[v := s.versions[v].(archived := true)];
      }
    }
  }

  lemma ArchivedTakesNoMore(t: State, v: Id)
    requires v in t.versions && t.versions[v].archived
    ensures TakesNoMore(t, v)
  {
    hide Strip, NameTaken, ContainerTaken;
  }

  // ------------------------------------------------- the download job guard

  function Others(jobs: seq<Option<Id>>, v: Id): seq<Option<Id>> {
    if jobs == [] then [] else (if jobs[0] == Some(v) then [] else [jobs[0]]) + Others(jobs[1..], v)
  }

  function Own(jobs: seq<Option<Id>>, v: Id): seq<Option<Id>> {
    if jobs == [] then [] else (if jobs[0] == Some(v) then [jobs[0]] else []) + Own(jobs[1..], v)
  }

  lemma {:induction false} SplitJobs(jobs: seq<Option<Id>>, v: Id)
    ensures multiset(Others(jobs, v)) + multiset(Own(jobs, v)) == multiset(jobs)
  {
    if jobs != [] {
      SplitJobs(jobs[1..], v);
      assert jobs == [jobs[0]] + jobs[1..];
    }
  }

  lemma {:induction false} OthersAre(jobs: seq<Option<Id>>, v: Id)
    ensures forall i :: 0 <= i < |Others(jobs, v)| ==> Others(jobs, v)[i] != Some(v)
  {
    if jobs != [] {
      OthersAre(jobs[1..], v);
    }
  }

  lemma {:induction false} OthersLength(jobs: seq<Option<Id>>, v: Id)
    ensures |Others(jobs, v)| == |jobs| - multiset(jobs)[Some(v)]
  {
    if jobs != [] {
      OthersLength(jobs[1..], v);
      assert jobs == [jobs[0]] + jobs[1..];
    }
  }

  /** The guard sees a job of the version in every order the rows may come in, if and only if
      fewer than twenty active jobs belong to other versions. With more, some order hides the
      job, and a version that is being downloaded is archived. */
  lemma JobAlwaysSeenIff(jobs: seq<Option<Id>>, v: Id)
    requires Some(v) in jobs
    ensures (forall listing :: multiset(listing) == multiset(jobs) ==> JobSeen(listing, v))
              <==> |jobs| - multiset(jobs)[Some(v)] < 20
  {
    if |jobs| - multiset(jobs)[Some(v)] < 20 {
      forall listing | multiset(listing) == multiset(jobs) ensures JobSeen(listing, v) {
        FewOthers(listing, jobs, v);
      }
    } else {
      SplitJobs(jobs, v);
      OthersAre(jobs, v);
      OthersLength(jobs, v);
      var hidden := Others(jobs, v) + Own(jobs, v);
      assert multiset(hidden) == multiset(jobs) && !JobSeen(hidden, v);
    }
  }

  /** So a version that is being downloaded stays unarchived whatever order the jobs are
      listed in, if and only if it has a live deployment or fewer than twenty active jobs
      belong to other versions. Otherwise some listing lets it be archived. */
  lemma DownloadingStaysIff(s: State, v: Id, jobs: seq<Option<Id>>)
    requires v in s.versions && !s.versions[v].archived && Some(v) in jobs
    ensures (forall listing :: multiset(listing) == multiset(jobs) ==> !ArchiveVersion(s, v, listing).state.versions[v].archived)
              <==> (exists d :: d in s.deployments && s.deployments[d].version == v && !s.deployments[d].retired) || |jobs| - multiset(jobs)[Some(v)] < 20
  {
    JobAlwaysSeenIff(jobs, v);
    forall listing | multiset(listing) == multiset(jobs)
      ensures ArchiveVersion(s, v, listing).state.versions[v].archived <==> !InUse(s.deployments, v) && !JobSeen(listing, v)
    {
      hide JobSeen, InUse;
    }
    hide ArchiveVersion, JobSeen, InUse;
  }

  lemma FewOthers(listing: seq<Option<Id>>, jobs: seq<Option<Id>>, v: Id)
    requires multiset(listing) == multiset(jobs) && Some(v) in jobs
    requires |jobs| - multiset(jobs)[Some(v)] < 20
    ensures JobSeen(listing, v)
  {
    assert Some(v) in multiset(jobs);
    assert Some(v) in listing;
    assert |listing| == |multiset(listing)| == |multiset(jobs)| == |jobs|;
    if !JobSeen(listing, v) && |listing| >= JOB_LIMIT {
      NoneOf(listing[..JOB_LIMIT], v);
      assert listing == listing[..JOB_LIMIT] + listing[JOB_LIMIT..];
      AtMostLength(listing[JOB_LIMIT..], v);
    }
  }

  lemma {:induction false} NoneOf(s: seq<Option<Id>>, v: Id)
    requires forall i :: 0 <= i < |s| ==> s[i] != Some(v)
    ensures multiset(s)[Some(v)] == 0
  {
    assert Some(v) !in s;
  }

  lemma {:induction false} AtMostLength(s: seq<Option<Id>>, v: Id)
    ensures multiset(s)[Some(v)] <= |s|
  {
    if s != [] {
      AtMostLength(s[1..], v);
      assert s == [s[0]] + s[1..];
    }
  }
}
