/** Cancelling against claiming: both lock the job and then the operation, so one of them
    comes first, and that decides what the operation becomes. */
module ControlPlaneCancel {
  import opened Prelude
  import opened ControlPlane
  import opened ControlPlaneInvariants

  // ---------------------------------------------------------- one cancellation

  /** Neither pending nor running. */
  predicate Settled(step: Step) {
    step.status.StepSucceeded? || step.status.StepFailed? || step.status.StepSkipped?
  }

  /** Finished for good: CANCELLED, its job failed, no step pending or running. */
  predicate Closed(o: Operation) {
    && o.status.Cancelled?
    && (o.job.Some? ==> o.job.value.status.JobFailed? || o.job.value.status.JobDone?)
    && forall i :: 0 <= i < |o.steps| ==> Settled(o.steps[i])
  }

  /** Steps that had not settled are skipped, the others stay. */
  predicate Skipped(was: seq<Step>, steps: seq<Step>, now: int) {
    && |steps| == |was|
    && forall i :: 0 <= i < |was| ==>
         steps[i] == if Settled(was[i]) then was[i] else Step(was[i].sequence, was[i].code, StepSkipped, Some(now))
  }

  /** A queued operation as it is closed: its job failed, its open steps skipped, the rest as
      it was but for the request and its reason. */
  predicate ClosedNow(o: Operation, n: Operation, now: int) {
    && Closed(n) && n.finishedAt == Some(now) && Skipped(o.steps, n.steps, now)
    && (o.job.None? ==> n.job.None?) && (o.job.Some? ==> n.job == Some(Job(JobFailed, o.job.value.maxAttempts)))
    && SameButIntent(o.(status := n.status, finishedAt := n.finishedAt, steps := n.steps, job := n.job), n)
  }

  /** Everything but the cancellation request and its reason. */
  predicate SameButIntent(a: Operation, b: Operation) {
    a.(cancelRequestedAt := b.cancelRequestedAt, meta := a.meta.(cancelReason := b.meta.cancelReason)) == b
  }

  /** What a cancellation does, in every state of the operation: a queued one is closed, a
      claimed one only learns of the request, a finished one is left alone. */
  lemma CancelEffect(o: Operation, reason: Option<string>, now: int)
    ensures var (n, decision) := ApplyCancel(o, reason, now);
            && (decision.CancelDone? <==> StillQueued(o))
            && (StillQueued(o) ==> ClosedNow(o, n, now))
            && (!StillQueued(o) ==> SameButIntent(o, n))
            && (decision.IntentOnly? <==> Active(o.status) && !StillQueued(o))
            && (o.cancelRequestedAt.Some? ==> n.cancelRequestedAt == o.cancelRequestedAt)
            && (Active(o.status) && o.cancelRequestedAt.None? ==> n.cancelRequestedAt == Some(now))
            && (!Active(o.status) ==> n.cancelRequestedAt == o.cancelRequestedAt)
  {
  }

  /** Cancelling a cancelled operation again changes nothing but the reason, whenever it
      happens; without a reason it changes nothing. */
  lemma CancelAgain(o: Operation, first: Option<string>, t: int, second: Option<string>, u: int)
    ensures var n := ApplyCancel(o, first, t).0;
            var (m, decision) := ApplyCancel(n, second, u);
            n.status.Cancelled? ==>
              && decision.Idempotent?
              && m == n.(meta := n.meta.(cancelReason := if Truthy(second).Some? then second else n.meta.cancelReason))
  {
  }

  /** What the row shows after a cancellation that is accepted. */
  predicate CancelShows(o: Operation, n: Operation, now: int) {
    && (StillQueued(o) ==> ClosedNow(o, n, now))
    && (!StillQueued(o) ==> SameButIntent(o, n))
    && (Active(o.status) && o.cancelRequestedAt.None? ==> n.cancelRequestedAt == Some(now))
    && (!Active(o.status) || o.cancelRequestedAt.Some? ==> n.cancelRequestedAt == o.cancelRequestedAt)
  }

  /** The meaning of a cancel request. It is answered with an error exactly when the operation
      is missing, is no switch, or ended otherwise than by cancellation; it writes that one
      row only: a queued one is closed, a claimed one learns of the request. */
  ghost predicate CancelMeans(s: State, after: Outcome, id: Id, now: int) {
    && (after.reply.Ok? <==>
          id in s.operations && ColdOrHotSwitch(s.operations[id])
          && var o := s.operations[id];
             Active(o.status) || o.status.Cancelled? || (o.status.RolledBack? && o.cancelRequestedAt.Some?))
    && (after.reply.Err? ==> after.state == s)
    && after.state == s.(operations := after.state.operations)
    && after.state.operations.Keys == s.operations.Keys
    && (forall i :: i in s.operations && i != id ==> after.state.operations[i] == s.operations[i])
    && (after.reply.Ok? && id in s.operations ==>
          after.reply.value == OperationReply(id) && CancelShows(s.operations[id], after.state.operations[id], now))
  }

  lemma CancelReplies(s: State, id: Id, reason: Option<string>, now: int)
    ensures CancelMeans(s, CancelOperation(s, id, reason, now), id, now)
  {
    if id in s.operations {
      CancelEffect(s.operations[id], reason, now);
      hide CancelShows, FinalizeCancelled, PatchReason, ClosedNow, SameButIntent;
      EffectShows(s.operations[id], reason, now);
    }
  }

  lemma EffectShows(o: Operation, reason: Option<string>, now: int)
    ensures CancelShows(o, ApplyCancel(o, reason, now).0, now)
  {
    CancelEffect(o, reason, now);
    hide ApplyCancel, ClosedNow, SameButIntent;
  }

  /** A claim takes a queued job, and with it a queued operation, out of reach of the next
      claim; it changes nothing else, and nothing without a queued job. */
  lemma ClaimedOnce(o: Operation)
    ensures var n := ClaimOperation(o);
            && ClaimOperation(n) == n
            && n == o.(status := n.status, job := n.job)
            && (o.job.None? || !o.job.value.status.JobQueued? ==> n == o)
            && (o.job.Some? && o.job.value.status.JobQueued? ==>
                  n.job == Some(Job(JobRunning, o.job.value.maxAttempts)) && !n.status.Queued?
                  && (!o.status.Queued? ==> n.status == o.status) && (o.status.Queued? ==> n.status.Running?))
  {
  }

  /** A reopened operation with a job is claimed like a queued one and keeps its status. */
  lemma ReopenedIsClaimed(o: Operation, status: OpStatus)
    requires o.job.Some? && (status.Running? || status.RollingBack?)
    ensures var n := ClaimOperation(ReopenOperation(o, status));
            && ReopenOperation(o, status).job == Some(Job(JobQueued, o.job.value.maxAttempts))
            && n == o.(status := status, job := Some(Job(JobRunning, o.job.value.maxAttempts)), finishedAt := None)
  {
  }

  // -------------------------------------------------------------------- the race

  /** What may happen to a queued switch, in any order and any number of times. `PutBack`
      is the worker returning a claimed job to the queue. */
  datatype Event = Claimed | PutBack | CancelAsked(reason: Option<string>, now: int)

  function Happen(o: Operation, e: Event): Operation {
    match e
    case Claimed => ClaimOperation(o)
    case PutBack =>
      if o.job.Some? && o.job.value.status.JobRunning? then o.(job := Some(o.job.value.(status := JobQueued))) else o
    case CancelAsked(reason, now) => ApplyCancel(o, reason, now).0
  }

  function After(o: Operation, es: seq<Event>): Operation
    decreases |es|
  {
    if es == [] then o else After(Happen(o, es[0]), es[1..])
  }

  /** The event that decides: the first claim or cancellation. */
  function Decider(es: seq<Event>): Option<Event> {
    if es == [] then None else if es[0].PutBack? then Decider(es[1..]) else Some(es[0])
  }

  function FirstRequest(es: seq<Event>): Option<int> {
    if es == [] then None else if es[0].CancelAsked? then Some(es[0].now) else FirstRequest(es[1..])
  }

  /** The last reason given, or `reason` when none was. */
  function LastReason(es: seq<Event>, reason: Option<string>): Option<string> {
    if es == [] then reason
    else LastReason(es[1..], if es[0].CancelAsked? && Truthy(es[0].reason).Some? then es[0].reason else reason)
  }

  /** After any history of a fresh operation: if a cancellation came first, it is closed, its
      open steps skipped and its job out of reach of every later claim; if a claim came
      first, it is RUNNING with its steps untouched and a cancellation is on record exactly
      when there was one. The recorded time is that of the first request. */
  lemma {:induction false} RaceOutcome(o: Operation, es: seq<Event>)
    requires o.status.Queued? && o.job.Some? && o.job.value.status.JobQueued? && o.cancelRequestedAt.None?
    ensures var n := After(o, es);
            && n.cancelRequestedAt == FirstRequest(es)
            && n.meta == o.meta.(cancelReason := LastReason(es, o.meta.cancelReason))
            && match Decider(es) {
                 case None => n == o
                 case Some(CancelAsked(_, now)) => ClosedNow(o, n, now)
                 case Some(_) => n.status.Running? && n.steps == o.steps && n.finishedAt == o.finishedAt
               }
    decreases |es|
  {
    if es != [] {
      match es[0]
      case PutBack => RaceOutcome(o, es[1..]);
      case Claimed => RunningStays(Happen(o, es[0]), es[1..]);
      case CancelAsked(reason, now) => ClosedStays(Happen(o, es[0]), es[1..]);
    }
  }

  lemma {:induction false} ClosedStays(o: Operation, es: seq<Event>)
    requires Closed(o)
    ensures After(o, es) == o.(meta := o.meta.(cancelReason := LastReason(es, o.meta.cancelReason)))
    decreases |es|
  {
    if es != [] {
      ClosedStays(Happen(o, es[0]), es[1..]);
    }
  }

  lemma {:induction false} RunningStays(o: Operation, es: seq<Event>)
    requires o.status.Running? && o.job.Some?
    ensures var n := After(o, es);
            && n.status.Running? && n.steps == o.steps && n.finishedAt == o.finishedAt
            && n.cancelRequestedAt == (if o.cancelRequestedAt.Some? then o.cancelRequestedAt else FirstRequest(es))
            && n.meta == o.meta.(cancelReason := LastReason(es, o.meta.cancelReason))
    decreases |es|
  {
    if es != [] {
      RunningStays(Happen(o, es[0]), es[1..]);
    }
  }
}
