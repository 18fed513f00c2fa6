/** Two runs from the empty tables, request by request, that end where one might expect the
    control plane never to be. */
module ControlPlaneRuns {
  import opened Prelude
  import opened ControlPlane
  import opened ControlPlaneInvariants

  /** These requests, in a run within the assumption, lead to this state. */
  ghost predicate Leads(rs: seq<Request>, s: State) {
    Legal(EMPTY_STATE, rs) && Run(EMPTY_STATE, rs) == s
  }

  lemma {:induction false} LegalAppend(s: State, xs: seq<Request>, r: Request)
    requires Legal(s, xs) && Rely(Run(s, xs), r)
    ensures Legal(s, xs + [r]) && Run(s, xs + [r]) == Apply(Run(s, xs), r).state
    decreases |xs|
  {
    hide Apply, Rely;
    if xs == [] {
      assert xs + [r] == [r] && [r][1..] == [];
    } else {
      assert (xs + [r])[1..] == xs[1..] + [r];
      LegalAppend(Apply(s, xs[0]).state, xs[1..], r);
    }
  }

  // ------------------------------------------------------------ a hot switch

  function Managed(name: string, container: string, gpu: Id): Deployment {
    Deployment(name, 0, Some(9), true, WantStopped, RtCreated, HsUnknown, Some(container), [gpu], false)
  }

  function Up(d: Deployment): Deployment {
    d.(desired := WantRunning, runtime := RtRunning, health := HsHealthy)
  }

  const LLM := Version(Llm, false)
  const ENDPOINT := Alias("m", ChatApi, true, Serving)
  const SETTINGS := SwitchTimeouts(60, 300, 30, 30)

  /** The switch, until the worker claims it. */
  function NewSwitch(): Operation {
    NewOperation(OpSwitch, Some(Hot), Some(3), Some(1), Some(2), None, None, None, None, SwitchMeta(Hot, SETTINGS, None),
                 HOT_SWITCH_STEPS, 3)
  }

  /** Deployment 1 runs and is published as endpoint 3, deployment 2 is created beside it. */
  function Published(): State {
    State(map[0 := LLM], map[1 := Up(Managed("a", "x", 7)), 2 := Managed("b", "y", 8)], map[3 := ENDPOINT],
          map[4 := Route(3, 1, true, None)], map[], map[], 2, 5)
  }

  /** The worker has claimed a hot switch of the endpoint from 1 to 2. */
  function Switching(): State {
    Published().(operations := map[5 := ClaimOperation(NewSwitch())], nextId := 6)
  }

  // The states before the endpoint is published, one request apart.

  function OneVersion(): State {
    State(map[0 := LLM], map[], map[], map[], map[], map[], 0, 1)
  }

  function OneDeployment(): State {
    OneVersion().(deployments := map[1 := Managed("a", "x", 7)], nextId := 2)
  }

  function TwoDeployments(): State {
    OneVersion().(deployments := map[1 := Managed("a", "x", 7), 2 := Managed("b", "y", 8)], nextId := 3)
  }

  function OneEndpoint(): State {
    TwoDeployments().(aliases := map[3 := ENDPOINT], routingVersion := 1, nextId := 4)
  }

  function OneRuns(): State {
    OneEndpoint().(deployments := map[1 := Up(Managed("a", "x", 7)), 2 := Managed("b", "y", 8)])
  }

  lemma FirstVersion()
    ensures Rely(EMPTY_STATE, NewVersion(Llm)) && Apply(EMPTY_STATE, NewVersion(Llm)).state == OneVersion()
  {
  }

  lemma OneLetter(s: string)
    requires |s| == 1 && !IsSpace(s[0])
    ensures Strip(s) == s
  {
  }

  /** A free name and container of one letter. */
  lemma Creates(s: State, name: string, container: string, gpu: Id)
    requires |name| == 1 && !IsSpace(name[0]) && |container| == 1 && !IsSpace(container[0])
    requires 0 in s.versions && !s.versions[0].archived && !NameTaken(s, name) && !ContainerTaken(s, container)
    ensures Apply(s, NewManaged(name, 0, 9, container, [gpu])).state == AddDeployment(s, Managed(name, container, gpu))
  {
    OneLetter(name);
    OneLetter(container);
    hide Strip, NameTaken, ContainerTaken, AddDeployment;
  }

  lemma FirstDeployment()
    ensures Apply(OneVersion(), NewManaged("a", 0, 9, "x", [7])).state == OneDeployment()
  {
    hide Apply;
    Creates(OneVersion(), "a", "x", 7);
  }

  lemma SecondDeployment()
    ensures Apply(OneDeployment(), NewManaged("b", 0, 9, "y", [8])).state == TwoDeployments()
  {
    hide Apply;
    assert "a"[0] != "b"[0] && "x"[0] != "y"[0];
    Creates(OneDeployment(), "b", "y", 8);
  }

  lemma FirstEndpoint()
    ensures Apply(TwoDeployments(), NewEndpoint("m", ChatApi)).state == OneEndpoint()
  {
  }

  lemma FirstRuns()
    ensures Rely(OneEndpoint(), Observe(1, WantRunning, RtRunning, HsHealthy, [7]))
    ensures Apply(OneEndpoint(), Observe(1, WantRunning, RtRunning, HsHealthy, [7])).state == OneRuns()
  {
  }

  lemma FirstRoute()
    ensures Apply(OneRuns(), SetRoute(3, 1, None, true, true)).state == Published()
  {
    assert RouteTargetError(OneRuns(), 3, 1) == None;
    assert ActiveRoute(OneRuns().routes, 3) == None;
    hide RouteTargetError, ActiveRoute;
  }

  lemma FirstSwitch()
    ensures Apply(Published(), Switch(3, 2, AskHot, SETTINGS, None, None, None, 3)).state
            == Published().(operations := map[5 := NewSwitch()], nextId := 6)
  {
    assert IsActiveRoute(Published().routes, 4, 3);
    assert ActiveRoute(Published().routes, 3) == Some(4);
    hide ActiveRoute, NewOperation, SwitchMeta;
    assert Baseline(Published(), 3, 2, None, false) == Ok(1);
    hide Baseline;
    assert !ActiveSwitchOn(Published().operations, 3) && !ActiveOperationOn(Published().operations, 1) && !ActiveOperationOn(Published().operations, 2);
  }

  lemma FirstClaim()
    ensures Apply(Published().(operations := map[5 := NewSwitch()], nextId := 6), Claim(5)).state == Switching()
  {
    hide NewSwitch, ClaimOperation;
  }

  /** One request more. */
  lemma Then(rs: seq<Request>, s: State, r: Request, t: State) returns (more: seq<Request>)
    requires Leads(rs, s) && Rely(s, r) && Apply(s, r).state == t
    ensures more == rs + [r] && Leads(more, t)
  {
    hide Apply, Rely, Legal, Run;
    LegalAppend(EMPTY_STATE, rs, r);
    more := rs + [r];
  }

  lemma NothingLeads()
    ensures Leads([], EMPTY_STATE)
  {
  }

  lemma NoAssumption(s: State, r: Request)
    requires !r.WorkOn? && !r.MoveRoute? && !r.Reopen?
    ensures Rely(s, r)
  {
  }

  /** The common beginning of both runs. */
  lemma ToSwitching() returns (rs: seq<Request>)
    ensures Leads(rs, Switching())
  {
    hide *;
    NothingLeads();
    rs := [];
    FirstVersion();
    rs := Then(rs, EMPTY_STATE, NewVersion(Llm), OneVersion());
    FirstDeployment();
    NoAssumption(OneVersion(), NewManaged("a", 0, 9, "x", [7]));
    rs := Then(rs, OneVersion(), NewManaged("a", 0, 9, "x", [7]), OneDeployment());
    SecondDeployment();
    NoAssumption(OneDeployment(), NewManaged("b", 0, 9, "y", [8]));
    rs := Then(rs, OneDeployment(), NewManaged("b", 0, 9, "y", [8]), TwoDeployments());
    FirstEndpoint();
    NoAssumption(TwoDeployments(), NewEndpoint("m", ChatApi));
    rs := Then(rs, TwoDeployments(), NewEndpoint("m", ChatApi), OneEndpoint());
    FirstRuns();
    rs := Then(rs, OneEndpoint(), Observe(1, WantRunning, RtRunning, HsHealthy, [7]), OneRuns());
    FirstRoute();
    NoAssumption(OneRuns(), SetRoute(3, 1, None, true, true));
    rs := Then(rs, OneRuns(), SetRoute(3, 1, None, true, true), Published());
    FirstSwitch();
    var asked := Published().(operations := map[5 := NewSwitch()], nextId := 6);
    NoAssumption(Published(), Switch(3, 2, AskHot, SETTINGS, None, None, None, 3));
    rs := Then(rs, Published(), Switch(3, 2, AskHot, SETTINGS, None, None, None, 3), asked);
    FirstClaim();
    NoAssumption(asked, Claim(5));
    rs := Then(rs, asked, Claim(5), Switching());
  }

  // --------------------------------------------- reopening breaks exclusion

  /** The switch waits for manual intervention. */
  function Waiting(): Operation {
    var o := ClaimOperation(NewSwitch());
    o.(status := ManualIntervention, job := Some(Job(JobFailed, 3)))
  }

  function Stuck(): State {
    Switching().(operations := map[5 := Waiting()])
  }

  /** And meanwhile its source is to be stopped. */
  ghost function Stopping(): State {
    Apply(Stuck(), Lifecycle(1, OpStop, None, None, None, 3)).state
  }

  lemma GetsStuck()
    ensures var o := ClaimOperation(NewSwitch());
            var r := WorkOn(5, ManualIntervention, o.steps, Some(Job(JobFailed, 3)), o.meta);
            Rely(Switching(), r) && Apply(Switching(), r).state == Stuck()
  {
    hide NewSwitch, ClaimOperation;
  }

  lemma StopIsAccepted()
    ensures var t := Stopping();
            && t.operations.Keys == {5, 6} && t.operations[5] == Waiting()
            && t.operations[6].status.Queued? && t.operations[6].target == Some(1)
  {
    hide PendingSteps, SwitchMeta, HOT_SWITCH_STEPS, LifecycleMeta;
    assert LifecycleError(Stuck(), 1, OpStop) == None;
  }

  lemma WaitingNames()
    ensures Waiting().status.ManualIntervention? && Waiting().kind.OpSwitch? && Touches(Waiting()) == {1, 2}
  {
    hide PendingSteps, SwitchMeta, HOT_SWITCH_STEPS;
  }

  /** A run within the assumption, from the empty tables, after which the worker's reconciler
      may find a switch that waits for manual intervention; reopening it then leaves two
      active operations on one deployment. */
  lemma ReopenCanBreakExclusion() returns (rs: seq<Request>)
    ensures Legal(EMPTY_STATE, rs) && Reachable(Run(EMPTY_STATE, rs)) && Inv(Run(EMPTY_STATE, rs))
    ensures var t := Run(EMPTY_STATE, rs);
            && 5 in t.operations && t.operations[5].status.ManualIntervention? && t.operations[5].kind.OpSwitch?
            && !SafeToReopen(t, 5)
            && !Exclusive(Apply(t, Reopen(5, Running)).state.operations)
  {
    hide *;
    rs := ToSwitching();
    GetsStuck();
    var o := ClaimOperation(NewSwitch());
    rs := Then(rs, Switching(), WorkOn(5, ManualIntervention, o.steps, Some(Job(JobFailed, 3)), o.meta), Stuck());
    StoppingIs();
    NoAssumption(Stuck(), Lifecycle(1, OpStop, None, None, None, 3));
    rs := Then(rs, Stuck(), Lifecycle(1, OpStop, None, None, None, 3), Stopping());
    LedIsReachable(rs, Stopping());
    ReachableIsGood(Stopping());
    StopIsAccepted();
    WaitingNames();
    BothAtWork(Stopping());
    ReopenKeepsIff(Stopping(), 5, Running);
    NotExclusive(Apply(Stopping(), Reopen(5, Running)).state);
  }

  lemma StoppingIs()
    ensures Apply(Stuck(), Lifecycle(1, OpStop, None, None, None, 3)).state == Stopping()
  {
    hide Apply, Stuck;
  }

  lemma {:induction false} LedIsReachable(rs: seq<Request>, s: State)
    requires Leads(rs, s)
    ensures Reachable(s) && Legal(EMPTY_STATE, rs) && Run(EMPTY_STATE, rs) == s
  {
    hide Legal, Run;
  }

  lemma BothAtWork(t: State)
    requires t.operations.Keys == {5, 6} && t.operations[5].status.ManualIntervention? && Touches(t.operations[5]) == {1, 2}
    requires t.operations[6].status.Queued? && t.operations[6].target == Some(1)
    ensures !Exclusive(Apply(t, Reopen(5, Running)).state.operations)
  {
    var u := Apply(t, Reopen(5, Running)).state;
    assert 1 in Touches(u.operations[5]) && 1 in Touches(u.operations[6]);
    assert !Apart(u.operations[5], u.operations[6]);
  }

  lemma NotExclusive(u: State)
    ensures !Exclusive(u.operations) ==> !Inv(u)
  {
    hide Exclusive, FreshIds, VersionsKnown, RouteRowsKnown, OperationRowsKnown, OneActiveRoute, RoutesLive, OperationsLive, Shapes,
      ArchivedRetired, KeysIndexed, Lineage;
  }

  // ------------------------------------------------- a route comes back

  /** The endpoint has been cut over to deployment 2: row 4 is INACTIVE. */
  function CutOverDone(): State {
    var s := Switching();
    s.(routes := map[4 := Route(3, 1, false, None), 6 := Route(3, 2, true, None)],
       operations := map[5 := ClaimOperation(NewSwitch()).(sourceRoute := Some(4))], routingVersion := 3, nextId := 7)
  }

  function RollingBackNow(): State {
    var s := CutOverDone();
    s.(operations := map[5 := s.operations[5].(status := RollingBack)])
  }

  function CutBack(): State {
    var s := RollingBackNow();
    s.(routes := map[4 := Route(3, 1, true, None), 6 := Route(3, 2, false, None)], routingVersion := 4)
  }

  lemma SwitchFields()
    ensures var o := ClaimOperation(NewSwitch());
            && o.kind.OpSwitch? && o.status.Running? && o.strategy == Some(Hot) && o.aliasId == Some(3)
            && o.source == Some(1) && o.target == Some(2) && o.sourceRoute == None && Touches(o) == {1, 2}
  {
    hide PendingSteps, SwitchMeta, HOT_SWITCH_STEPS;
  }

  lemma CutsOver()
    ensures Rely(Switching(), MoveRoute(5, 2)) && Apply(Switching(), MoveRoute(5, 2)).state == CutOverDone()
  {
    SwitchFields();
    hide NewSwitch, ClaimOperation;
    var s := Switching();
    assert IsActiveRoute(s.routes, 4, 3);
    assert ActiveRoute(s.routes, 3) == Some(4);
    assert NewestIdle(s.routes, 3, 2) == None;
    hide ActiveRoute, NewestIdle, Touches;
    assert CutOverPlan(s, s.operations[5], 2) == InsertNew;
    hide CutOverPlan;
    assert Deactivated(s.routes, 3) == map[4 := Route(3, 1, false, None)];
  }

  lemma RollsBack()
    ensures var o := ClaimOperation(NewSwitch()).(sourceRoute := Some(4));
            var r := WorkOn(5, RollingBack, o.steps, o.job, o.meta);
            Rely(CutOverDone(), r) && Apply(CutOverDone(), r).state == RollingBackNow()
  {
    SwitchFields();
    hide NewSwitch, ClaimOperation;
  }

  lemma CutsBack()
    ensures Rely(RollingBackNow(), MoveRoute(5, 1)) && Apply(RollingBackNow(), MoveRoute(5, 1)).state == CutBack()
  {
    SwitchFields();
    hide NewSwitch, ClaimOperation;
    var s := RollingBackNow();
    assert IsActiveRoute(s.routes, 6, 3);
    assert ActiveRoute(s.routes, 3) == Some(6);
    assert IsIdleRoute(s.routes, 4, 3, 1);
    assert Touches(s.operations[5]) == {1, 2};
    hide ActiveRoute, NewestIdle, Touches;
    assert CutOverPlan(s, s.operations[5], 1) == Reuse(4);
    hide CutOverPlan;
    assert Deactivated(s.routes, 3) == map[4 := Route(3, 1, false, None), 6 := Route(3, 2, false, None)];
  }

  /** A run within the assumption, from the empty tables, whose last step switches an INACTIVE
      route row on again: a hot switch that is rolled back. */
  lemma RouteComesBack() returns (rs: seq<Request>, last: Request, row: Id)
    ensures Legal(EMPTY_STATE, rs + [last]) && Inv(Run(EMPTY_STATE, rs))
    ensures var s, t := Run(EMPTY_STATE, rs), Run(EMPTY_STATE, rs + [last]);
            && row in s.routes && !s.routes[row].active
            && row in t.routes && t.routes[row].active
  {
    hide *;
    rs := ToSwitching();
    CutsOver();
    rs := Then(rs, Switching(), MoveRoute(5, 2), CutOverDone());
    RollsBack();
    var o := ClaimOperation(NewSwitch()).(sourceRoute := Some(4));
    rs := Then(rs, CutOverDone(), WorkOn(5, RollingBack, o.steps, o.job, o.meta), RollingBackNow());
    LedIsReachable(rs, RollingBackNow());
    ReachableIsGood(RollingBackNow());
    CutsBack();
    last, row := MoveRoute(5, 1), 4;
    var all := Then(rs, RollingBackNow(), last, CutBack());
    LedIsReachable(all, CutBack());
    OffAndOn();
  }

  lemma OffAndOn()
    ensures 4 in RollingBackNow().routes && !RollingBackNow().routes[4].active && 4 in CutBack().routes && CutBack().routes[4].active
  {
    hide NewSwitch, ClaimOperation;
  }
}
