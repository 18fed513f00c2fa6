/** The two polling loops that check what the gateway serves after a routing change.
    Sources: `services/decommission.py` (after an unpublication) and
    `services/cache_deploy.py` (after a publication). Each round reads the gateway's version
    and then, at a later instant, the route of the alias; the gateway may change in between.
    Time is counted in ticks. */
module GatewayVerify {
  import opened Prelude

  // -------------------------------------------------------------- the gateway

  /** What the gateway serves for the alias; `active` is empty without a deployment. */
  datatype RouteState = NoRoute | Route(active: string, running: bool, healthy: bool)

  datatype Gateway = Gateway(ready: bool, applied: Option<int>, route: RouteState)

  /** Its state at every instant. */
  type History = nat -> Gateway

  /** What becomes of one HTTP request. `Delivered` is the gateway's own reply. `Blank` is a
      reply below 500 (for a route other than 404) that is empty, or JSON without the fields:
      the code reads it as an object without entries. `Foreign404` is a 404 of somebody else,
      a proxy for example: for a route the code takes any 404 for a missing alias, whatever
      the body, and otherwise reads it like `Blank`. `Garbled` is a reply whose body is read
      and is not JSON: reading it raises. */
  datatype Transport = Delivered | ServerError | Unreachable | Blank | Foreign404 | Garbled

  /** One round: when each of its three actions happens, and what becomes of its requests. */
  datatype Poll = Poll(runtimeAt: nat, runtimeVia: Transport, routeAt: nat, routeVia: Transport, carriesVersion: bool, checkAt: nat)

  type Schedule = nat -> Poll

  /** Rounds follow each other with at least the interval in between. */
  ghost predicate Orderly(polls: Schedule, start: nat, interval: nat) {
    && interval >= 1 && start <= polls(0).runtimeAt
    && (forall k: nat :: polls(k).runtimeAt <= polls(k).routeAt <= polls(k).checkAt)
    && (forall k: nat :: polls(k).checkAt + interval <= polls(k + 1).runtimeAt)
  }

  predicate NotBelow(a: Option<int>, v: int) {
    a.Some? && a.value >= v
  }

  /** The applied version only grows. */
  ghost predicate VersionsGrow(h: History) {
    forall s, t, v :: s <= t && NotBelow(h(s).applied, v) ==> NotBelow(h(t).applied, v)
  }

  // -------------------------------------------------------------------- reads

  datatype RuntimeRead = RuntimeFailed | RuntimeGarbled | RuntimeRead(ready: bool, applied: Option<int>)

  function ReadRuntime(h: History, p: Poll): RuntimeRead {
    match p.runtimeVia
    case Delivered => RuntimeRead(h(p.runtimeAt).ready, h(p.runtimeAt).applied)
    case Blank => RuntimeRead(false, None)
    case Foreign404 => RuntimeRead(false, None)
    case Garbled => RuntimeGarbled
    case _ => RuntimeFailed
  }

  /** `applied` is the version in the reply, if it carries one. */
  datatype RouteRead = RouteFailed | RouteGarbled | RouteMissing | RouteRead(active: string, running: bool, healthy: bool, applied: Option<Option<int>>)

  function ReadRoute(h: History, p: Poll): RouteRead {
    match p.routeVia
    case Delivered =>
      var g := h(p.routeAt);
      if g.route.NoRoute? then RouteMissing
      else RouteRead(g.route.active, g.route.running, g.route.healthy, if p.carriesVersion then Some(g.applied) else None)
    case Blank => RouteRead("", false, false, None)
    case Foreign404 => RouteMissing
    case Garbled => RouteGarbled
    case _ => RouteFailed
  }

  predicate VersionOk(applied: Option<int>, expected: Option<int>) {
    expected.Some? ==> NotBelow(applied, expected.value)
  }

  // ----------------------------------------------------------- one round each

  datatype Verdict = Passed | Ready | StillActive | Mismatch | Pending | Unavailable | Raised | Skipped

  /** A round either decides or leaves a status for the case of a timeout. */
  datatype Round = Decided(verdict: Verdict) | Undecided(onTimeout: Verdict)

  /** One round of `verify_gateway_unpublish`. */
  function UnpublishRound(h: History, p: Poll, deployment: Option<string>, version: Option<int>): Round {
    var runtime := ReadRuntime(h, p);
    if runtime.RuntimeFailed? then Decided(Unavailable)
    else if runtime.RuntimeGarbled? then Decided(Raised)
    else
      var good := VersionOk(runtime.applied, version) && runtime.ready;
      match ReadRoute(h, p)
      case RouteFailed => Decided(Unavailable)
      case RouteGarbled => Decided(Raised)
      case RouteMissing => if good then Decided(Passed) else Undecided(Pending)
      case RouteRead(active, _, _, _) =>
        if deployment == Some(active) then (if good then Decided(StillActive) else Undecided(StillActive))
        else if good then Decided(Passed) else Undecided(Pending)
  }

  /** One round of `_wait_gateway_route_ready`. */
  function ReadyRound(h: History, p: Poll, deployment: string, version: Option<int>): Round {
    var runtime := ReadRuntime(h, p);
    if runtime.RuntimeFailed? then Decided(Unavailable)
    else if runtime.RuntimeGarbled? then Decided(Raised)
    else match ReadRoute(h, p)
      case RouteFailed => Decided(Unavailable)
      case RouteGarbled => Decided(Raised)
      case RouteMissing => Undecided(Pending)
      case RouteRead(active, running, healthy, applied) =>
        var versionOk := VersionOk(if applied.Some? then applied.value else runtime.applied, version);
        if active != "" && active != deployment then (if versionOk && runtime.ready then Decided(Mismatch) else Undecided(Mismatch))
        else if versionOk && active == deployment && runtime.ready && running && healthy then Decided(Ready)
        else Undecided(Pending)
  }

  function UnpublishRounds(h: History, polls: Schedule, deployment: Option<string>, version: Option<int>): nat -> Round {
    (k: nat) => UnpublishRound(h, polls(k), deployment, version)
  }

  function ReadyRounds(h: History, polls: Schedule, deployment: string, version: Option<int>): nat -> Round {
    (k: nat) => ReadyRound(h, polls(k), deployment, version)
  }

  /** The loop ends with this verdict in round n: nothing was decided and the deadline not
      reached before, and now one of both is. */
  ghost predicate EndsWith(rounds: nat -> Round, polls: Schedule, deadline: nat, n: nat, verdict: Verdict) {
    && (forall k :: 0 <= k < n ==> rounds(k).Undecided? && polls(k).checkAt < deadline)
    && match rounds(n)
       case Decided(v) => verdict == v
       case Undecided(v) => polls(n).checkAt >= deadline && verdict == v
  }

  // -------------------------------------------------------------- as they run

  /** `verify_gateway_unpublish`: the verdict and the number of the round it came from. */
  method VerifyGatewayUnpublish(h: History, polls: Schedule, deployment: Option<string>, version: Option<int>, configured: bool,
                                start: nat, timeout: nat, ghost interval: nat) returns (verdict: Verdict, n: nat)
    requires Orderly(polls, start, interval)
    ensures !configured ==> verdict == Skipped
    ensures configured ==> EndsWith(UnpublishRounds(h, polls, deployment, version), polls, start + timeout, n, verdict)
  {
    n := 0;
    if !configured {
      return Skipped, 0;
    }
    var deadline := start + timeout;
    ghost var rounds := UnpublishRounds(h, polls, deployment, version);
    ghost var now := start;
    while true
      invariant now <= polls(n).runtimeAt && (n > 0 ==> now < polls(n).runtimeAt)
      invariant forall k :: 0 <= k < n ==> rounds(k).Undecided? && polls(k).checkAt < deadline
      invariant n > 0 ==> now < deadline
      decreases if n == 0 then deadline + polls(0).checkAt + 1 else deadline - now
    {
      var p := polls(n);
      var last := Pending;
      var runtime := ReadRuntime(h, p);
      if runtime.RuntimeFailed? {
        return Unavailable, n;
      }
      if runtime.RuntimeGarbled? {
        return Raised, n;
      }
      var versionOk := version == None || (runtime.applied.Some? && runtime.applied.value >= version.value);
      var route := ReadRoute(h, p);
      if route.RouteFailed? {
        return Unavailable, n;
      }
      if route.RouteGarbled? {
        return Raised, n;
      }
      if route.RouteMissing? {
        if versionOk && runtime.ready {
          return Passed, n;
        }
      } else {
        var stillActive := deployment.Some? && route.active == deployment.value;
        if stillActive {
          last := StillActive;
        }
        if stillActive && versionOk && runtime.ready {
          return last, n;
        }
        if !stillActive && versionOk && runtime.ready {
          return Passed, n;
        }
      }
      assert rounds(n) == Undecided(last);
      if p.checkAt >= deadline {
        return if last.StillActive? then StillActive else Pending, n;
      }
      now := p.checkAt;
      n := n + 1;
    }
  }

  /** `_wait_gateway_route_ready`. */
  method WaitGatewayRouteReady(h: History, polls: Schedule, deployment: string, version: Option<int>, start: nat, timeout: nat,
                               ghost interval: nat) returns (verdict: Verdict, n: nat)
    requires Orderly(polls, start, interval) && deployment != ""
    ensures EndsWith(ReadyRounds(h, polls, deployment, version), polls, start + timeout, n, verdict)
  {
    n := 0;
    var deadline := start + timeout;
    ghost var rounds := ReadyRounds(h, polls, deployment, version);
    ghost var now := start;
    var mismatchSeen := false;
    while true
      invariant now <= polls(n).runtimeAt && (n > 0 ==> now < polls(n).runtimeAt)
      invariant forall k :: 0 <= k < n ==> rounds(k).Undecided? && polls(k).checkAt < deadline
      invariant n > 0 ==> now < deadline
      decreases if n == 0 then deadline + polls(0).checkAt + 1 else deadline - now
    {
      var p := polls(n);
      var last := Pending;
      var runtime := ReadRuntime(h, p);
      if runtime.RuntimeFailed? {
        return Unavailable, n;
      }
      if runtime.RuntimeGarbled? {
        return Raised, n;
      }
      var route := ReadRoute(h, p);
      if route.RouteFailed? {
        return Unavailable, n;
      }
      if route.RouteGarbled? {
        return Raised, n;
      }
      if route.RouteRead? {
        var applied := if route.applied.Some? then route.applied.value else runtime.applied;
        var versionOk := version == None || (applied.Some? && applied.value >= version.value);
        var sameDeployment := route.active == deployment;
        if route.active != "" && !sameDeployment {
          mismatchSeen := true;
          last := Mismatch;
          if versionOk && runtime.ready {
            return last, n;
          }
        }
        if versionOk && sameDeployment && runtime.ready && route.running && route.healthy {
          return Ready, n;
        }
      }
      assert rounds(n) == Undecided(last);
      if p.checkAt >= deadline {
        return if mismatchSeen && last.Mismatch? then last else Pending, n;
      }
      now := p.checkAt;
      n := n + 1;
    }
  }

  // --------------------------------------------------------------- what holds

  /** The first read found the gateway ready at the committed version or later. */
  predicate CaughtUp(h: History, p: Poll, version: Option<int>) {
    h(p.runtimeAt).ready && VersionOk(h(p.runtimeAt).applied, version)
  }

  /** The gateway does not route the alias to the deployment. */
  predicate Off(g: Gateway, deployment: Option<string>) {
    g.route.Route? ==> deployment != Some(g.route.active)
  }

  predicate Answered(p: Poll) {
    p.runtimeVia.Delivered? && p.routeVia.Delivered?
  }

  /** With every answer delivered the loop says PASSED in round n exactly when that is the
      first round to find the gateway caught up, no earlier round ran into the deadline, and
      its second read did not show the deployment. */
  lemma PassedIff(h: History, polls: Schedule, deployment: Option<string>, version: Option<int>, deadline: nat, n: nat)
    requires forall k :: 0 <= k <= n ==> Answered(polls(k))
    ensures EndsWith(UnpublishRounds(h, polls, deployment, version), polls, deadline, n, Passed) <==>
              && CaughtUp(h, polls(n), version) && Off(h(polls(n).routeAt), deployment)
              && forall k :: 0 <= k < n ==> !CaughtUp(h, polls(k), version) && polls(k).checkAt < deadline
  {
    var rounds := UnpublishRounds(h, polls, deployment, version);
    forall k | 0 <= k <= n
      ensures rounds(k).Decided? <==> CaughtUp(h, polls(k), version)
      ensures rounds(k) == Decided(Passed) <==> CaughtUp(h, polls(k), version) && Off(h(polls(k).routeAt), deployment)
    {
      assert Answered(polls(k)) && rounds(k) == UnpublishRound(h, polls(k), deployment, version);
    }
    TimedOut(h, polls, deployment, version, n);
  }

  lemma TimedOut(h: History, polls: Schedule, deployment: Option<string>, version: Option<int>, n: nat)
    ensures UnpublishRounds(h, polls, deployment, version)(n) != Undecided(Passed)
  {
    assert UnpublishRounds(h, polls, deployment, version)(n) == UnpublishRound(h, polls(n), deployment, version);
  }

  /** The version a round of the wait goes by: that of the route reply, if it carries one. */
  function AppliedFor(h: History, p: Poll): Option<int> {
    if p.carriesVersion && h(p.routeAt).route.Route? then h(p.routeAt).applied else h(p.runtimeAt).applied
  }

  predicate CaughtUpFor(h: History, p: Poll, version: Option<int>) {
    h(p.runtimeAt).ready && VersionOk(AppliedFor(h, p), version)
  }

  /** The alias is routed to another deployment. */
  predicate Elsewhere(g: Gateway, deployment: string) {
    g.route.Route? && g.route.active != "" && g.route.active != deployment
  }

  predicate DecidesWait(h: History, p: Poll, deployment: string, version: Option<int>) {
    CaughtUpFor(h, p, version) && (h(p.routeAt).route == Route(deployment, true, true) || Elsewhere(h(p.routeAt), deployment))
  }

  /** With every answer delivered the wait says READY in round n exactly when that is the first
      round to find the gateway caught up and the alias either on the running, healthy
      deployment or on another one, and it is the former. It says MISMATCH when it is the
      latter, and also at the deadline when the last read showed another deployment. */
  lemma WaitMeans(h: History, polls: Schedule, deployment: string, version: Option<int>, deadline: nat, n: nat)
    requires deployment != "" && forall k :: 0 <= k <= n ==> Answered(polls(k))
    ensures var rounds, before := ReadyRounds(h, polls, deployment, version),
                                  (forall k :: 0 <= k < n ==> !DecidesWait(h, polls(k), deployment, version) && polls(k).checkAt < deadline);
            && (EndsWith(rounds, polls, deadline, n, Ready) <==>
                  before && CaughtUpFor(h, polls(n), version) && h(polls(n).routeAt).route == Route(deployment, true, true))
            && (EndsWith(rounds, polls, deadline, n, Mismatch) <==>
                  before && Elsewhere(h(polls(n).routeAt), deployment) && (CaughtUpFor(h, polls(n), version) || polls(n).checkAt >= deadline))
  {
    var rounds := ReadyRounds(h, polls, deployment, version);
    forall k | 0 <= k <= n
      ensures rounds(k).Decided? <==> DecidesWait(h, polls(k), deployment, version)
      ensures rounds(k) == Decided(Ready) <==>
                CaughtUpFor(h, polls(k), version) && h(polls(k).routeAt).route == Route(deployment, true, true)
      ensures rounds(k) == Decided(Mismatch) <==> CaughtUpFor(h, polls(k), version) && Elsewhere(h(polls(k).routeAt), deployment)
      ensures rounds(k) != Undecided(Ready)
      ensures rounds(k).Undecided? ==> (rounds(k) == Undecided(Mismatch) <==> Elsewhere(h(polls(k).routeAt), deployment))
    {
      assert Answered(polls(k)) && rounds(k) == ReadyRound(h, polls(k), deployment, version);
    }
  }

  /** What PASSED is to mean at the second read: the committed version is applied and the
      alias is not routed to the deployment. */
  predicate SoundAt(g: Gateway, deployment: Option<string>, version: Option<int>) {
    VersionOk(g.applied, version) && Off(g, deployment)
  }

  /** The route reply says nothing about the gateway, but is read as a route or as its
      absence. */
  predicate Mistaken(via: Transport) {
    via.Blank? || via.Foreign404?
  }

  /** PASSED is sound although the version and the route are read at different instants. The
      only assumptions are that versions grow and that the route reply was not mistaken. */
  lemma PassedIsSound(h: History, polls: Schedule, deployment: Option<string>, version: Option<int>, deadline: nat, n: nat)
    requires VersionsGrow(h) && polls(n).runtimeAt <= polls(n).routeAt && !Mistaken(polls(n).routeVia)
    requires EndsWith(UnpublishRounds(h, polls, deployment, version), polls, deadline, n, Passed)
    ensures SoundAt(h(polls(n).routeAt), deployment, version)
  {
    var p := polls(n);
    assert UnpublishRounds(h, polls, deployment, version)(n) == UnpublishRound(h, p, deployment, version) == Decided(Passed);
    if version.Some? {
      assert NotBelow(h(p.runtimeAt).applied, version.value);
    }
  }

  /** The round can be reached: before it every reply could be read and the deadline had not
      passed. */
  ghost predicate Reached(polls: Schedule, deadline: nat, n: nat) {
    forall k :: 0 <= k < n ==> Readable(polls(k)) && polls(k).checkAt < deadline
  }

  predicate Readable(p: Poll) {
    (p.runtimeVia.Delivered? || Mistaken(p.runtimeVia)) && (p.routeVia.Delivered? || Mistaken(p.routeVia))
  }

  /** Exactly when PASSED in round n is sound, whatever the gateway did: unless the version
      was read and the route reply was blank or a 404 that is not the gateway's. */
  lemma PassedSoundIff(polls: Schedule, d: string, version: Option<int>, start: nat, interval: nat, deadline: nat, n: nat)
    requires Orderly(polls, start, interval) && d != "" && Reached(polls, deadline, n)
    ensures (forall h: History :: VersionsGrow(h) && EndsWith(UnpublishRounds(h, polls, Some(d), version), polls, deadline, n, Passed) ==>
               SoundAt(h(polls(n).routeAt), Some(d), version))
            <==> !(polls(n).runtimeVia.Delivered? && Mistaken(polls(n).routeVia))
  {
    if polls(n).runtimeVia.Delivered? && Mistaken(polls(n).routeVia) {
      var h := LateGateway(polls(n).runtimeAt, d, version);
      LatePasses(polls, d, version, start, interval, deadline, n);
      assert !SoundAt(h(polls(n).routeAt), Some(d), version);
    } else {
      forall h: History | VersionsGrow(h) && EndsWith(UnpublishRounds(h, polls, Some(d), version), polls, deadline, n, Passed)
        ensures SoundAt(h(polls(n).routeAt), Some(d), version)
      {
        NeedsRuntime(h, polls, Some(d), version, deadline, n);
        PassedIsSound(h, polls, Some(d), version, deadline, n);
      }
    }
  }

  /** PASSED is never said on a runtime read that brought nothing. */
  lemma NeedsRuntime(h: History, polls: Schedule, deployment: Option<string>, version: Option<int>, deadline: nat, n: nat)
    requires EndsWith(UnpublishRounds(h, polls, deployment, version), polls, deadline, n, Passed)
    ensures polls(n).runtimeVia.Delivered?
  {
    assert UnpublishRounds(h, polls, deployment, version)(n) == UnpublishRound(h, polls(n), deployment, version);
  }

  /** A gateway that becomes ready at an instant and routes the alias to d all the time. */
  function LateGateway(ready: nat, d: string, version: Option<int>): History {
    (t: nat) => Gateway(t >= ready, if version.Some? then version else Some(0), Route(d, true, true))
  }

  lemma LatePasses(polls: Schedule, d: string, version: Option<int>, start: nat, interval: nat, deadline: nat, n: nat)
    requires Orderly(polls, start, interval) && d != "" && Reached(polls, deadline, n)
    requires polls(n).runtimeVia.Delivered? && Mistaken(polls(n).routeVia)
    ensures var h := LateGateway(polls(n).runtimeAt, d, version);
            VersionsGrow(h) && EndsWith(UnpublishRounds(h, polls, Some(d), version), polls, deadline, n, Passed)
  {
    var h := LateGateway(polls(n).runtimeAt, d, version);
    var rounds := UnpublishRounds(h, polls, Some(d), version);
    forall k | 0 <= k < n ensures rounds(k).Undecided? && polls(k).checkAt < deadline {
      RoundsFollow(polls, start, interval, k, n);
      assert Readable(polls(k)) && rounds(k) == UnpublishRound(h, polls(k), Some(d), version);
    }
    assert rounds(n) == UnpublishRound(h, polls(n), Some(d), version) == Decided(Passed);
  }

  lemma {:induction false} RoundsFollow(polls: Schedule, start: nat, interval: nat, k: nat, n: nat)
    requires Orderly(polls, start, interval) && k < n
    ensures polls(k).runtimeAt <= polls(k).checkAt < polls(n).runtimeAt
    decreases n
  {
    assert polls(n - 1).checkAt + interval <= polls(n - 1 + 1).runtimeAt;
    if k < n - 1 {
      RoundsFollow(polls, start, interval, k, n - 1);
      assert polls(n - 1).runtimeAt <= polls(n - 1).checkAt;
    }
  }

  /** READY likewise: at the second read the alias was routed to the deployment, running and
      healthy, at the committed version or later. */
  lemma ReadyIsSound(h: History, polls: Schedule, deployment: string, version: Option<int>, deadline: nat, n: nat)
    requires VersionsGrow(h) && polls(n).runtimeAt <= polls(n).routeAt && deployment != ""
    requires EndsWith(ReadyRounds(h, polls, deployment, version), polls, deadline, n, Ready)
    ensures var g := h(polls(n).routeAt);
            VersionOk(g.applied, version) && g.route == Route(deployment, true, true)
  {
    var p := polls(n);
    assert ReadyRounds(h, polls, deployment, version)(n) == ReadyRound(h, p, deployment, version) == Decided(Ready);
    if version.Some? && !p.carriesVersion {
      assert NotBelow(h(p.runtimeAt).applied, version.value);
    }
  }

  /** A timeout never reports success: a loop that ends in a round that decided nothing is
      past its deadline and says that the route is still active, does not match or is
      pending. So both loops say PASSED or READY only in a round that decided it. */
  lemma TimeoutIsNoSuccess(h: History, polls: Schedule, deployment: Option<string>, expected: string, version: Option<int>,
                           deadline: nat, n: nat, verdict: Verdict)
    ensures EndsWith(UnpublishRounds(h, polls, deployment, version), polls, deadline, n, verdict) ==>
              if UnpublishRounds(h, polls, deployment, version)(n).Undecided?
              then polls(n).checkAt >= deadline && verdict in {StillActive, Pending}
              else verdict in {Passed, StillActive, Unavailable, Raised}
    ensures EndsWith(ReadyRounds(h, polls, expected, version), polls, deadline, n, verdict) ==>
              if ReadyRounds(h, polls, expected, version)(n).Undecided?
              then polls(n).checkAt >= deadline && verdict in {Mismatch, Pending}
              else verdict in {Ready, Mismatch, Unavailable, Raised}
  {
    assert UnpublishRounds(h, polls, deployment, version)(n) == UnpublishRound(h, polls(n), deployment, version);
    assert ReadyRounds(h, polls, expected, version)(n) == ReadyRound(h, polls(n), expected, version);
  }

  lemma {:induction false} ChecksAdvance(polls: Schedule, start: nat, interval: nat, k: nat)
    requires Orderly(polls, start, interval)
    ensures polls(k).checkAt >= start + k * interval
  {
    if k > 0 {
      ChecksAdvance(polls, start, interval, k - 1);
      assert polls(k - 1).checkAt + interval <= polls(k - 1 + 1).runtimeAt;
      assert k * interval == (k - 1) * interval + interval;
    }
  }

  /** The loop ends: all rounds before the last were within the timeout, and no more rounds
      fit than intervals do. */
  lemma EndsByDeadline(rounds: nat -> Round, polls: Schedule, start: nat, timeout: nat, interval: nat, n: nat, verdict: Verdict)
    requires Orderly(polls, start, interval) && EndsWith(rounds, polls, start + timeout, n, verdict)
    ensures n > 0 ==> (n - 1) * interval < timeout && polls(n - 1).checkAt < start + timeout
  {
    if n > 0 {
      ChecksAdvance(polls, start, interval, n - 1);
    }
  }

  /** It ends in one way only: round and verdict are determined. */
  lemma EndsOnce(rounds: nat -> Round, polls: Schedule, deadline: nat, n: nat, v: Verdict, m: nat, w: Verdict)
    requires EndsWith(rounds, polls, deadline, n, v) && EndsWith(rounds, polls, deadline, m, w)
    ensures n == m && v == w
  {
    assert n < m ==> rounds(n).Undecided? && polls(n).checkAt < deadline;
    assert m < n ==> rounds(m).Undecided? && polls(m).checkAt < deadline;
  }

  /** A gateway that settled in time is recognised: if from some instant on it is ready, at
      the committed version and off the deployment, every answer is delivered, and the loop
      reaches a round after that instant, then the loop ends with PASSED in that round or
      ends before it. */
  lemma SettledIsSeen(h: History, polls: Schedule, deployment: Option<string>, version: Option<int>, deadline: nat, settled: nat, m: nat,
                      n: nat, verdict: Verdict)
    requires forall t :: t >= settled ==> h(t).ready && SoundAt(h(t), deployment, version)
    requires Answered(polls(m)) && settled <= polls(m).runtimeAt <= polls(m).routeAt
    requires EndsWith(UnpublishRounds(h, polls, deployment, version), polls, deadline, n, verdict)
    ensures n <= m && (n == m ==> verdict == Passed)
  {
    var rounds := UnpublishRounds(h, polls, deployment, version);
    assert rounds(m) == UnpublishRound(h, polls(m), deployment, version) == Decided(Passed);
    assert m < n ==> rounds(m).Undecided?;
  }

  /** Likewise for the wait after a publication: a gateway that is ready, at the committed
      version and routing the alias to the running, healthy deployment from some instant on
      is recognised in the first answered round after it, unless the loop ended before. */
  lemma ReadySettledIsSeen(h: History, polls: Schedule, deployment: string, version: Option<int>, deadline: nat, settled: nat, m: nat,
                           n: nat, verdict: Verdict)
    requires forall t :: t >= settled ==> h(t).ready && VersionOk(h(t).applied, version) && h(t).route == Route(deployment, true, true)
    requires Answered(polls(m)) && settled <= polls(m).runtimeAt <= polls(m).routeAt
    requires EndsWith(ReadyRounds(h, polls, deployment, version), polls, deadline, n, verdict)
    ensures n <= m && (n == m ==> verdict == Ready)
  {
    var rounds := ReadyRounds(h, polls, deployment, version);
    assert rounds(m) == ReadyRound(h, polls(m), deployment, version) == Decided(Ready);
    assert m < n ==> rounds(m).Undecided?;
  }

  /** Where it fails, in the smallest loops: the first route reply is blank, or a 404 of
      somebody else, and the loop says PASSED while the gateway routes the alias to the
      deployment as before. */
  lemma MistakenReadPasses(via: Transport) returns (h: History, polls: Schedule)
    requires Mistaken(via)
    ensures VersionsGrow(h) && Orderly(polls, 0, 1) && polls(0).routeVia == via
    ensures EndsWith(UnpublishRounds(h, polls, Some("d"), Some(3)), polls, 15, 0, Passed)
    ensures h(polls(0).routeAt).route == Route("d", true, true)
  {
    polls := (k: nat) => Poll(3 * k, Delivered, 3 * k + 1, via, true, 3 * k + 2);
    h := LateGateway(0, "d", Some(3));
    LatePasses(polls, "d", Some(3), 0, 1, 15, 0);
  }
}
