/** Retries of switches: what a whole chain of retries shares with its root. */
module ControlPlaneLineage {
  import opened Prelude
  import opened ControlPlane
  import opened ControlPlaneInvariants

  // ---------------------------------------------------------------- the chain

  /** The operation at the start of a retry chain. Identifiers decrease along it. */
  ghost function RootOf(operations: Operations, i: Id): (root: Id)
    requires Lineage(operations) && i in operations
    ensures root in operations && root <= i && operations[root].retryOf == None
    decreases i
  {
    if operations[i].retryOf == None then i else RootOf(operations, operations[i].retryOf.value)
  }

  /** Timeouts that are there are kept, missing ones become 60 seconds for the drain, 300 for
      the health check and 30 each for the memory and the gateway. */
  predicate KeepsTimeouts(t: Timeouts, original: Timeouts) {
    && t.drain == Some(if original.drain.Some? then original.drain.value else 60)
    && t.health == Some(if original.health.Some? then original.health.value else 300)
    && t.vramRelease == Some(if original.vramRelease.Some? then original.vramRelease.value else 30)
    && t.gatewayApply == Some(if original.gatewayApply.Some? then original.gatewayApply.value else 30)
  }

  /** The reason in the metadata is the original's, or else the one of its request, if that
      says anything. */
  predicate KeepsReason(o: Operation, original: Operation) {
    if original.meta.reason.Some? && original.meta.reason.value != "" then o.meta.reason == original.meta.reason
    else if original.reason.Some? && original.reason.value != "" then o.meta.reason == original.reason
    else o.meta.reason.None?
  }

  /** Every operation of a chain of any length has the alias, source, target, strategy and
      reason of its root; from the first retry on, the timeouts are the root's with the
      defaults filled in, and they do not drift. */
  lemma {:induction false} ChainFollowsRoot(operations: Operations, i: Id)
    requires Lineage(operations) && i in operations
    ensures var o, root := operations[i], operations[RootOf(operations, i)];
            && o.aliasId == root.aliasId && o.source == root.source && o.target == root.target
            && o.strategy == root.strategy && o.reason == root.reason
            && (o.retryOf.Some? ==>
                  && o.kind.OpSwitch? && root.kind.OpSwitch?
                  && KeepsTimeouts(o.meta.timeouts, root.meta.timeouts) && KeepsReason(o, root))
    decreases i
  {
    var o := operations[i];
    if o.retryOf.Some? {
      var p := o.retryOf.value;
      assert Inherits(o, operations[p]);
      ChainFollowsRoot(operations, p);
    }
  }

  /** What a retry takes from the metadata is stable: taking it again gives the same. */
  lemma WhitelistIsStable(meta: Meta, strategy: Strategy, reason: Option<string>)
    ensures var once := RetryMeta(meta, strategy, reason);
            && RetryMeta(once, strategy, reason) == once
            && !once.destructive && once.cancelReason == None && once.transient == map[]
  {
  }

  /** So a retry of any operation of a chain takes what a retry of its root would take. */
  lemma {:induction false} MetaFromRoot(operations: Operations, i: Id)
    requires Lineage(operations) && i in operations && ColdOrHotSwitch(operations[i])
    ensures var o, root := operations[i], operations[RootOf(operations, i)];
            root.strategy.Some? && RetryMeta(o.meta, o.strategy.value, o.reason) == RetryMeta(root.meta, root.strategy.value, root.reason)
  {
    ChainFollowsRoot(operations, i);
    var root := operations[RootOf(operations, i)];
    WhitelistIsStable(root.meta, root.strategy.value, root.reason);
  }

  // ---------------------------------------------------------------- one retry

  /** A retry that inserts an operation leaves every other row as it was, and the new one is
      a queued switch under the original with the strategy's steps, numbered from 1. */
  lemma RetryEffect(s: State, id: Id, key: Option<Key>, who: Option<string>)
    requires Inv(s) && RetrySwitch(s, id, key, who).state != s
    ensures var t, added := RetrySwitch(s, id, key, who).state, s.nextId;
            && id in s.operations && RetryEligible(s.operations[id].status)
            && !(s.operations[id].status.Failed? && s.operations[id].meta.destructive)
            && t.operations.Keys == s.operations.Keys + {added} && added !in s.operations
            && (forall i :: i in s.operations ==> t.operations[i] == s.operations[i])
            && t == s.(operations := t.operations, keyIndex := t.keyIndex, nextId := t.nextId)
            && Renewed(t.operations[added], s.operations[id], id, key, who)
  {
    RetryInserts(s, id, key, who);
    RetryNotDestructive(s, id, key, who);
    assert s.nextId !in s.operations;
    RetryIsRenewed(s, id, key, who);
    hide Inv, RetrySwitch, Baseline, ActiveSwitchOn, ActiveOperationOn, ActiveRetryOf, RetryOperation, Renewed;
  }

  /** A fresh retry of `parent`, the operation `id`, under which nothing has happened yet. */
  predicate Renewed(o: Operation, parent: Operation, id: Id, key: Option<Key>, who: Option<string>) {
    && o.status.Queued? && o.retryOf == Some(id) && o.key == key && Inherits(o, parent)
    && KeepsTimeouts(o.meta.timeouts, parent.meta.timeouts) && KeepsReason(o, parent)
    && !o.meta.destructive && o.meta.cancelReason.None? && o.meta.transient == map[] && o.cancelRequestedAt == None && o.finishedAt == None
    && o.meta.strategy == o.strategy
    && (o.strategy == Some(Hot) ==> o.meta.flags == {HotForward, SourceRetirement, HotRetry})
    && (o.strategy == Some(Cold) ==> o.meta.flags == {ForwardColdOnly})
    && o.requestedBy == (if who.Some? && who.value != "" then who else parent.requestedBy)
    && Attempts(o, if parent.job.Some? && parent.job.value.maxAttempts != 0 then parent.job.value.maxAttempts else 3)
    && o.strategy.Some? && StepsOf(o, SwitchSteps(o.strategy.value))
  }

  /** The job is claimable and may be tried n times, but at least once. */
  predicate Attempts(o: Operation, n: int) {
    o.job.Some? && o.job.value.status.JobQueued? && o.job.value.maxAttempts == if n < 1 then 1 else n
  }

  lemma RetryIsRenewed(s: State, id: Id, key: Option<Key>, who: Option<string>)
    requires id in s.operations && ColdOrHotSwitch(s.operations[id])
    ensures Renewed(RetryOperation(s, id, key, who), s.operations[id], id, key, who)
  {
    hide SwitchSteps;
  }

  lemma RetryNotDestructive(s: State, id: Id, key: Option<Key>, who: Option<string>)
    requires RetrySwitch(s, id, key, who).state != s
    ensures id in s.operations && !(s.operations[id].status.Failed? && s.operations[id].meta.destructive)
  {
    hide Baseline, ActiveSwitchOn, ActiveOperationOn, ActiveRetryOf, CreateSwitch;
  }

  /** The steps are exactly these, in order, numbered from 1, none started. */
  predicate StepsOf(o: Operation, codes: seq<string>) {
    |o.steps| == |codes| && forall i :: 0 <= i < |codes| ==> o.steps[i] == Step(i + 1, codes[i], StepPending, None)
  }

  /** The new operation belongs to the chain of its original and has the metadata a retry of
      the root would have, however long the chain; no other chain changes. */
  lemma {:induction false} RetryExtendsChain(s: State, id: Id, key: Option<Key>, who: Option<string>, i: Id)
    requires Inv(s) && RetrySwitch(s, id, key, who).state != s && i in s.operations
    ensures var t := RetrySwitch(s, id, key, who).state;
            && Inv(t) && id in s.operations && s.nextId in t.operations && i in t.operations
            && RootOf(t.operations, s.nextId) == RootOf(s.operations, id)
            && RootOf(t.operations, i) == RootOf(s.operations, i)
            && FromRoot(t.operations[s.nextId], s.operations[RootOf(s.operations, id)])
  {
    RetryEffect(s, id, key, who);
    RetryKeeps(s, Retry(id, key, who));
    var t := RetrySwitch(s, id, key, who).state;
    assert Apply(s, Retry(id, key, who)).state == t;
    FreshFromRoot(s, id, key, who);
    hide RetrySwitch, Apply, Inherits, FromRoot;
    SameRoot(s.operations, t.operations, i);
    SameRoot(s.operations, t.operations, id);
  }

  /** The metadata is that of a retry of the root. */
  predicate FromRoot(o: Operation, root: Operation) {
    root.strategy.Some? && o.meta == RetryMeta(root.meta, root.strategy.value, root.reason)
  }

  lemma {:induction false} FreshFromRoot(s: State, id: Id, key: Option<Key>, who: Option<string>)
    requires Inv(s) && RetrySwitch(s, id, key, who).state != s
    ensures id in s.operations && s.nextId in RetrySwitch(s, id, key, who).state.operations
    ensures FromRoot(RetrySwitch(s, id, key, who).state.operations[s.nextId], s.operations[RootOf(s.operations, id)])
  {
    RetryInserts(s, id, key, who);
    MetaFromRoot(s.operations, id);
    hide Inv, RetrySwitch, RetryMeta;
  }

  /** Rows that keep their parents keep their roots. */
  lemma {:induction false} SameRoot(before: Operations, after: Operations, i: Id)
    requires Lineage(before) && Lineage(after) && i in before
    requires forall k :: k in before ==> k in after && after[k].retryOf == before[k].retryOf
    ensures RootOf(after, i) == RootOf(before, i)
    decreases i
  {
    if before[i].retryOf.Some? {
      SameRoot(before, after, before[i].retryOf.value);
    }
  }

  /** Asking again after a successful retry: the same key replays the same operation, and
      without that key the request is refused while the retry is active. */
  lemma RetryOnce(s: State, id: Id, key: Option<Key>, who: Option<string>, again: Option<Key>)
    requires Inv(s) && RetrySwitch(s, id, key, who).state != s
    ensures var t := RetrySwitch(s, id, key, who).state;
            && RetrySwitch(s, id, key, who).reply == Ok(OperationReply(s.nextId))
            && (key.Some? ==> RetrySwitch(t, id, key, who) == Outcome(t, Ok(OperationReply(s.nextId))))
            && (again.None? || again.value !in t.keyIndex ==>
                  RetrySwitch(t, id, again, who) == Outcome(t, Err(Conflict(InvalidOperationState))))
  {
    RetryEffect(s, id, key, who);
    RetryInserts(s, id, key, who);
    var t := RetrySwitch(s, id, key, who).state;
    hide Inv, Baseline, Inherits, SwitchSteps, CreateSwitch, StepsOf;
    assert ActiveRetryOf(t.operations, id);
  }

  // -------------------------------------------------------------- whole runs

  /** No step changes what an operation is, whatever becomes of its status. */
  lemma StepKeepsIdentity(s: State, r: Request, i: Id)
    requires Inv(s) && Rely(s, r) && i in s.operations
    ensures i in Apply(s, r).state.operations && SameIdentity(Apply(s, r).state.operations[i], s.operations[i])
  {
    assert i < s.nextId;
    match r
    case Retry(id, key, who) => hide *; RetryAppends(s, id, key, who, i);
    case Switch(a, target, ask, t, key, reason, who, n) => hide *; SwitchAppends(s, a, target, ask, t, key, reason, who, n, i);
    case Cancel(id, reason, now) => hide *; CancelKeepsRow(s, id, reason, now, i);
    case Lifecycle(d, kind, key, reason, who, n) => hide *; LifecycleAppends(s, d, kind, key, reason, who, n, i);
    case _ => hide *; OthersKeepIdentity(s, r, i);
  }

  lemma RetryAppends(s: State, id: Id, key: Option<Key>, who: Option<string>, i: Id)
    requires i in s.operations && i < s.nextId
    ensures var u := Apply(s, Retry(id, key, who)).state; i in u.operations && SameIdentity(u.operations[i], s.operations[i])
  {
    if RetrySwitch(s, id, key, who).state != s { RetryInserts(s, id, key, who); }
    hide RetrySwitch, RetryOperation;
  }

  lemma CancelKeepsRow(s: State, id: Id, reason: Option<string>, now: int, i: Id)
    requires i in s.operations
    ensures var u := Apply(s, Cancel(id, reason, now)).state; i in u.operations && SameIdentity(u.operations[i], s.operations[i])
  {
    if id in s.operations { CancelKeepsIdentity(s.operations[id], reason, now); }
    hide ApplyCancel;
  }

  lemma LifecycleAppends(s: State, d: Id, kind: OpKind, key: Option<Key>, reason: Option<string>, who: Option<string>, n: int, i: Id)
    requires i in s.operations && i < s.nextId
    ensures var u := Apply(s, Lifecycle(d, kind, key, reason, who, n)).state;
            i in u.operations && SameIdentity(u.operations[i], s.operations[i])
  {
    hide LifecycleError, NewOperation, LifecycleMeta, LifecycleSteps;
  }

  lemma SwitchAppends(s: State, a: Id, target: Id, ask: RequestedStrategy, t: SwitchTimeouts, key: Option<Key>,
                      reason: Option<string>, who: Option<string>, n: int, i: Id)
    requires i in s.operations && i < s.nextId
    ensures var u := Apply(s, Switch(a, target, ask, t, key, reason, who, n)).state;
            i in u.operations && SameIdentity(u.operations[i], s.operations[i])
  {
    hide Baseline, SwitchMeta, ActiveOperationOn, ActiveSwitchOn, NewOperation, TimeoutsPositive, SwitchSteps;
  }

  lemma OthersKeepIdentity(s: State, r: Request, i: Id)
    requires Rely(s, r) && i in s.operations
    requires !r.Retry? && !r.Switch? && !r.Cancel? && !r.Lifecycle?
    ensures i in Apply(s, r).state.operations && SameIdentity(Apply(s, r).state.operations[i], s.operations[i])
  {
    if FromWorker(r) {
      hide WorkerStep, Rely, SameIdentity;
      WorkerKeepsIdentity(s, r, i);
    } else {
      hide *;
      ItselfSame(s.operations[i]);
      if r.SetRoute? || r.Withdraw? {
        RoutesLeaveOperations(s, r);
      } else {
        RowsLeaveOperations(s, r);
      }
    }
  }

  lemma RoutesLeaveOperations(s: State, r: Request)
    requires r.SetRoute? || r.Withdraw?
    ensures Apply(s, r).state.operations == s.operations
  {
    hide ActiveRoute, Deactivated, RouteTargetError, RequestedRewrite;
  }

  lemma RowsLeaveOperations(s: State, r: Request)
    requires !FromWorker(r) && !r.Retry? && !r.Switch? && !r.Cancel? && !r.Lifecycle? && !r.SetRoute? && !r.Withdraw?
    ensures Apply(s, r).state.operations == s.operations
  {
    hide AliasTaken, RetireError, RequireVersion, Strip, NameTaken, ContainerTaken, InUse;
  }

  lemma ItselfSame(o: Operation)
    ensures SameIdentity(o, o)
  {
  }

  lemma WorkerKeepsIdentity(s: State, r: Request, i: Id)
    requires FromWorker(r) && Rely(s, r) && i in s.operations
    ensures i in WorkerStep(s, r).operations && SameIdentity(WorkerStep(s, r).operations[i], s.operations[i])
  {
    hide CutOver, SafeToReopen;
    if r.MoveRoute? && r.operation in s.operations {
      CutOverKeepsIdentity(s, r.operation, r.deployment, i);
      hide SameIdentity;
    }
    ItselfSame(s.operations[i]);
  }

  lemma CutOverKeepsIdentity(s: State, id: Id, d: Id, i: Id)
    requires id in s.operations && i in s.operations
    ensures i in CutOver(s, id, d).operations && SameIdentity(CutOver(s, id, d).operations[i], s.operations[i])
  {
    hide CutOver, CutOverPlan, ActiveRoute;
    CutOverShape(s, id, d);
    var o := s.operations[id];
    var plan := CutOverPlan(s, o, d);
    if !plan.Stay? {
      MovedLeavesOperations(s, o.aliasId.value, d, PlannedRow(plan));
      hide Moved;
    }
  }

  lemma {:induction false} RunKeepsIdentity(s: State, rs: seq<Request>, i: Id)
    requires Inv(s) && Legal(s, rs) && i in s.operations
    ensures i in Run(s, rs).operations && SameIdentity(Run(s, rs).operations[i], s.operations[i])
    decreases |rs|
  {
    hide Inv, Apply, Rely;
    if rs != [] {
      StepKeeps(s, rs[0]);
      StepKeepsIdentity(s, rs[0], i);
      RunKeepsIdentity(Apply(s, rs[0]).state, rs[1..], i);
    }
  }

  /** Over a run of any length an operation keeps its root, and the chain's shared fields
      are still the root's, whatever the worker did in between. */
  lemma {:induction false} RunKeepsRoot(s: State, rs: seq<Request>, i: Id)
    requires Inv(s) && Legal(s, rs) && i in s.operations
    ensures var t := Run(s, rs);
            && Inv(t) && i in t.operations
            && RootOf(t.operations, i) == RootOf(s.operations, i)
            && t.operations[i].target == s.operations[RootOf(s.operations, i)].target
            && t.operations[i].source == s.operations[RootOf(s.operations, i)].source
  {
    RunKeeps(s, rs);
    ghost var t := Run(s, rs);
    forall k | k in s.operations ensures k in t.operations && SameIdentity(t.operations[k], s.operations[k]) {
      RunKeepsIdentity(s, rs, k);
    }
    GoodOperations(s);
    GoodOperations(t);
    hide Inv, Run, Legal, Lineage;
    SameRoot(s.operations, t.operations, i);
    ChainFollowsRoot(s.operations, i);
  }
}
