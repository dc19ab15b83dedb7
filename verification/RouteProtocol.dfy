/** One webhook route as a protocol: request handlers, the retry worker, cancellation and the
    shutdown that waits for the worker under the server lock, interleaved in atomic steps.
    A Go select with several ready cases may take any of them. */
module RouteProtocol {
  import opened Api
  import RetryDelays

  const CHANNEL_CAPACITY := 256

  /** `Sent`: the event is on the channel and the answer still to be written. */
  datatype Handler = Entered | Publishing | Sent | Requeueing | Answered(status: nat)

  /** The worker with the request it retries and the number of the attempt. */
  datatype Worker =
    | Absent
    | Selecting
    | Checking(request: nat, attempt: nat)
    | Waiting(request: nat, attempt: nat)
    | Sending(request: nat, attempt: nat)
    | Exited

  /** `Stopping`: the route is cancelled and shutdown waits while the server lock is held.
      `Stopped`: shutdown has returned. New requests find the route only while `Serving`. */
  datatype Phase = Serving | Stopping | Stopped

  datatype Publication = Publication(request: nat, byWorker: bool)

  /** `faulty` lets a publication fail for another reason than cancellation, which the code
      has no means to do. */
  datatype Route = Route(policy: Option<RetryPolicy>, faulty: bool)

  datatype State = State(
    handlers: seq<Handler>,
    worker: Worker,
    cancelled: bool,
    phase: Phase,
    published: seq<Publication>,
    buffered: nat)

  function Initial(route: Route): State {
    State([], if route.policy.Some? then Selecting else Absent, false, Serving, [], 0)
  }

  datatype Step =
    | Arrive
    | Reject(i: nat, status: nat)
    | Accept(i: nat)
    | Publish(i: nat)
    | Answer(i: nat)
    | FailPublish(i: nat)
    | HandOver(i: nat)
    | Abandon(i: nat)
    | WorkerQuit
    | Check(wait: bool)
    | TimerFires
    | StopWaiting
    | WorkerPublish
    | WorkerFail
    | CancelParent
    | BeginShutdown
    | EndShutdown
    | Consume
    | OthersPublish

  /** The answers to a request that is not published: 500 for a recovered panic. */
  predicate IsRejection(status: nat) {
    status == 400 || status == 401 || status == 413 || status == 500
  }

  predicate HandlerIs(s: State, i: nat, h: Handler) {
    i < |s.handlers| && s.handlers[i] == h
  }

  function SetHandler(s: State, i: nat, h: Handler): State
    requires i < |s.handlers|
  {
    s.(handlers := s.handlers[i := h])
  }

  function MaxRetries(route: Route): int {
    if route.policy.None? then 0 else RetryDelays.Limit(route.policy.value.maxRetries)
  }

  /** The state after a handler step, if it is possible. */
  function HandlerNext(route: Route, s: State, step: Step): Option<State> {
    match step
    case Arrive =>
      if s.phase.Serving? then Some(s.(handlers := s.handlers + [Entered])) else None
    case Reject(i, status) =>
      if HandlerIs(s, i, Entered) && IsRejection(status) then Some(SetHandler(s, i, Answered(status))) else None
    case Accept(i) =>
      if HandlerIs(s, i, Entered) then Some(SetHandler(s, i, Publishing)) else None
    case Publish(i) =>
      if HandlerIs(s, i, Publishing) && s.buffered < CHANNEL_CAPACITY then
        Some(SetHandler(s, i, Sent).(published := s.published + [Publication(i, false)], buffered := s.buffered + 1))
      else None
    case Answer(i) =>
      if HandlerIs(s, i, Sent) then Some(SetHandler(s, i, Answered(204))) else None
    case FailPublish(i) =>
      if HandlerIs(s, i, Publishing) && (s.cancelled || route.faulty) then
        Some(SetHandler(s, i, if route.policy.Some? then Requeueing else Answered(500)))
      else None
    case HandOver(i) =>
      if HandlerIs(s, i, Requeueing) && s.worker.Selecting? then
        Some(SetHandler(s, i, Answered(500)).(worker := Checking(i, 1)))
      else None
    case Abandon(i) =>
      if HandlerIs(s, i, Requeueing) && s.cancelled then Some(SetHandler(s, i, Answered(500))) else None
    case _ => None
  }

  /** The state after a step of the retry worker, if it is possible. */
  function WorkerNext(route: Route, s: State, step: Step): Option<State> {
    match (step, s.worker)
    case (WorkerQuit, Selecting) =>
      if s.cancelled then Some(s.(worker := Exited)) else None
    case (Check(wait), Checking(r, n)) =>
      if s.cancelled then Some(s.(worker := Selecting))
      else Some(s.(worker := if wait then Waiting(r, n) else Sending(r, n)))
    case (TimerFires, Waiting(r, n)) =>
      Some(s.(worker := Sending(r, n)))
    case (StopWaiting, Waiting(r, n)) =>
      if s.cancelled then Some(s.(worker := Selecting)) else None
    case (WorkerPublish, Sending(r, n)) =>
      if s.buffered < CHANNEL_CAPACITY then
        Some(s.(worker := Selecting, published := s.published + [Publication(r, true)], buffered := s.buffered + 1))
      else None
    case (WorkerFail, Sending(r, n)) =>
      if s.cancelled || route.faulty then
        Some(s.(worker := if n >= MaxRetries(route) then Selecting else Checking(r, n + 1)))
      else None
    case _ => None
  }

  predicate WorkerDone(s: State) {
    s.worker.Absent? || s.worker.Exited?
  }

  /** Cancellation, shutdown and the rest of the system. */
  function OtherNext(s: State, step: Step): Option<State> {
    match step
    case CancelParent => Some(s.(cancelled := true))
    case BeginShutdown => if s.phase.Serving? then Some(s.(cancelled := true, phase := Stopping)) else None
    case EndShutdown => if s.phase.Stopping? && WorkerDone(s) then Some(s.(phase := Stopped)) else None
    case Consume => if s.buffered > 0 then Some(s.(buffered := s.buffered - 1)) else None
    case OthersPublish => if s.buffered < CHANNEL_CAPACITY then Some(s.(buffered := s.buffered + 1)) else None
    case _ => None
  }

  predicate IsWorkerStep(step: Step) {
    step.WorkerQuit? || step.Check? || step.TimerFires? || step.StopWaiting? || step.WorkerPublish? || step.WorkerFail?
  }

  predicate IsHandlerStep(step: Step) {
    step.Arrive? || step.Reject? || step.Accept? || step.Publish? || step.Answer?
    || step.FailPublish? || step.HandOver? || step.Abandon?
  }

  function Next(route: Route, s: State, step: Step): Option<State> {
    if IsHandlerStep(step) then HandlerNext(route, s, step)
    else if IsWorkerStep(step) then WorkerNext(route, s, step)
    else OtherNext(s, step)
  }

  /** The state after a run, if every step of it is possible. */
  function Run(route: Route, s: State, steps: seq<Step>): Option<State> {
    if steps == [] then Some(s)
    else
      var before := Run(route, s, steps[..|steps| - 1]);
      if before.None? then None else Next(route, before.value, steps[|steps| - 1])
  }

  // At most one publication for each request.

  predicate Holds(w: Worker, r: nat) {
    (w.Checking? || w.Waiting? || w.Sending?) && w.request == r
  }

  /** Where the event of request `r` may be, given the state of its handler. */
  predicate Placed(s: State, r: nat)
    requires r < |s.handlers|
  {
    var h := s.handlers[r];
    && (h == Sent || h == Answered(204) <==> Publication(r, false) in s.published)
    && (Publication(r, true) in s.published ==> h == Answered(500) && !Holds(s.worker, r))
    && (Holds(s.worker, r) ==> h == Answered(500))
  }

  predicate Once(published: seq<Publication>) {
    forall p, q :: 0 <= p < q < |published| ==> published[p].request != published[q].request
  }

  ghost predicate Accounted(s: State) {
    && Once(s.published)
    && (forall p :: 0 <= p < |s.published| ==> s.published[p].request < |s.handlers|)
    && (forall r: nat :: Holds(s.worker, r) ==> r < |s.handlers|)
    && (forall r: nat :: r < |s.handlers| ==> Placed(s, r))
  }

  lemma Unpublished(s: State, r: nat)
    requires Accounted(s) && r < |s.handlers|
    requires s.handlers[r] == Publishing || Holds(s.worker, r)
    ensures forall p :: 0 <= p < |s.published| ==> s.published[p].request != r
  {
    assert Placed(s, r);
    forall p | 0 <= p < |s.published| ensures s.published[p].request != r {
      assert s.published[p] in s.published;
      assert s.published[p] == Publication(s.published[p].request, s.published[p].byWorker);
    }
  }

  lemma PublicationsGrow(published: seq<Publication>, x: Publication)
    requires Once(published)
    requires forall p :: 0 <= p < |published| ==> published[p].request != x.request
    ensures Once(published + [x])
    ensures forall y :: y in published + [x] <==> y in published || y == x
  {
  }

  lemma HandlerStepAccounted(route: Route, s: State, step: Step)
    requires Accounted(s) && IsHandlerStep(step) && HandlerNext(route, s, step).Some?
    ensures Accounted(HandlerNext(route, s, step).value)
  {
    var t := HandlerNext(route, s, step).value;
    if step.Publish? {
      Unpublished(s, step.i);
      PublicationsGrow(s.published, Publication(step.i, false));
    }
    forall r: nat | r < |t.handlers| ensures Placed(t, r) {
      if r < |s.handlers| {
        assert Placed(s, r);
      } else {
        assert forall p :: p in s.published ==> p.request < |s.handlers|;
      }
    }
  }

  lemma WorkerStepAccounted(route: Route, s: State, step: Step)
    requires Accounted(s) && IsWorkerStep(step) && WorkerNext(route, s, step).Some?
    ensures Accounted(WorkerNext(route, s, step).value)
  {
    var t := WorkerNext(route, s, step).value;
    assert forall r: nat :: Holds(t.worker, r) ==> Holds(s.worker, r);
    if step.WorkerPublish? {
      assert Holds(s.worker, s.worker.request);
      Unpublished(s, s.worker.request);
      PublicationsGrow(s.published, Publication(s.worker.request, true));
    }
    forall r: nat | r < |t.handlers| ensures Placed(t, r) {
      assert Placed(s, r);
    }
  }

  lemma {:induction false} RunsAccounted(route: Route, steps: seq<Step>)
    requires Run(route, Initial(route), steps).Some?
    ensures Accounted(Run(route, Initial(route), steps).value)
  {
    if steps != [] {
      var init, step := steps[..|steps| - 1], steps[|steps| - 1];
      RunsAccounted(route, init);
      var s := Run(route, Initial(route), init).value;
      if IsHandlerStep(step) {
        HandlerStepAccounted(route, s, step);
      } else if IsWorkerStep(step) {
        WorkerStepAccounted(route, s, step);
      } else {
        var t := OtherNext(s, step).value;
        assert forall r: nat :: r < |s.handlers| && Placed(s, r) ==> Placed(t, r);
      }
    }
  }

  /** Over every interleaving, and even if publishing could fail at any time, a request puts at
      most one event on the channel, and an answer is 204 exactly when the handler published that
      event itself; a handler that did so has no other answer to give. */
  lemma OneEventPerRequest(route: Route, steps: seq<Step>)
    requires Run(route, Initial(route), steps).Some?
    ensures var s := Run(route, Initial(route), steps).value;
            && (forall p, q :: 0 <= p < q < |s.published| ==> s.published[p].request != s.published[q].request)
            && (forall r: nat :: r < |s.handlers| && s.handlers[r].Answered? ==>
                  (s.handlers[r].status == 204 <==> Publication(r, false) in s.published))
            && (forall r: nat :: r < |s.handlers| && Publication(r, false) in s.published ==>
                  s.handlers[r] == Sent || s.handlers[r] == Answered(204))
  {
    RunsAccounted(route, steps);
    var s := Run(route, Initial(route), steps).value;
    forall r: nat | r < |s.handlers|
      ensures s.handlers[r] == Sent || s.handlers[r] == Answered(204) <==> Publication(r, false) in s.published
    {
      assert Placed(s, r);
    }
  }

  // The retry worker never gets anything to retry before the route is cancelled.

  predicate Idle(s: State) {
    && (!s.cancelled ==> s.worker.Absent? || s.worker.Selecting?)
    && (!s.cancelled ==> Requeueing !in s.handlers)
    && !s.worker.Waiting? && !s.worker.Sending?
    && forall p :: p in s.published ==> !p.byWorker
  }

  lemma {:induction false} RunsIdle(route: Route, steps: seq<Step>)
    requires !route.faulty && Run(route, Initial(route), steps).Some?
    ensures Idle(Run(route, Initial(route), steps).value)
  {
    if steps != [] {
      var init, step := steps[..|steps| - 1], steps[|steps| - 1];
      RunsIdle(route, init);
      var s, t := Run(route, Initial(route), init).value, Run(route, Initial(route), steps).value;
      assert step.Publish? ==> forall p :: p in t.published ==> p in s.published || p == Publication(step.i, false);
      assert step.HandOver? ==> s.handlers[step.i] in s.handlers;
    }
  }

  /** As the code stands, a publication fails only once the route is cancelled, and the worker
      checks that first: in no run does it ever attempt, let alone make, a retry. The events
      published are those of requests answered 204, or about to be. */
  lemma RetriesNeverHappen(route: Route, steps: seq<Step>)
    requires !route.faulty && Run(route, Initial(route), steps).Some?
    ensures var s := Run(route, Initial(route), steps).value;
            && !s.worker.Sending?
            && (forall p :: p in s.published ==>
                  !p.byWorker && (HandlerIs(s, p.request, Sent) || HandlerIs(s, p.request, Answered(204))))
  {
    RunsIdle(route, steps);
    RunsAccounted(route, steps);
    var s := Run(route, Initial(route), steps).value;
    forall p | p in s.published ensures HandlerIs(s, p.request, Sent) || HandlerIs(s, p.request, Answered(204)) {
      assert p == Publication(p.request, false) && Placed(s, p.request);
    }
  }

  /** The retry of request `i` on a route whose publications may fail for other reasons. */
  function Retrying(i: nat): seq<Step> {
    [Arrive, Accept(i), FailPublish(i), HandOver(i), Check(false), WorkerPublish]
  }

  /** Were other failures possible, the same worker would retry: every run that leaves the route
      serving with an idle worker and room on the channel, in particular the empty one, can go on
      with a request whose event only the worker publishes. */
  lemma FaultyRouteRetries(route: Route, steps: seq<Step>)
    requires route.faulty && route.policy.Some? && Run(route, Initial(route), steps).Some?
    requires var s := Run(route, Initial(route), steps).value;
             s.phase.Serving? && s.worker.Selecting? && !s.cancelled && s.buffered < CHANNEL_CAPACITY
    ensures var s := Run(route, Initial(route), steps).value;
            var t := Run(route, Initial(route), steps + Retrying(|s.handlers|));
            t.Some? && t.value.published == s.published + [Publication(|s.handlers|, true)]
  {
    var s := Run(route, Initial(route), steps).value;
    var i := |s.handlers|;
    var failed := steps + [Arrive] + [Accept(i)] + [FailPublish(i)];
    FailsOnce(route, steps, s);
    WorkerTakesOver(route, failed, Run(route, Initial(route), failed).value, i);
    Spelled(steps, i);
  }

  lemma Spelled(steps: seq<Step>, i: nat)
    ensures steps + [Arrive] + [Accept(i)] + [FailPublish(i)] + [HandOver(i)] + [Check(false)] + [WorkerPublish]
            == steps + Retrying(i)
  {
  }

  lemma FailsOnce(route: Route, steps: seq<Step>, s: State)
    requires route.faulty && route.policy.Some? && Run(route, Initial(route), steps) == Some(s) && s.phase.Serving?
    ensures Run(route, Initial(route), steps + [Arrive] + [Accept(|s.handlers|)] + [FailPublish(|s.handlers|)])
            == Some(s.(handlers := s.handlers + [Requeueing]))
  {
    var i := |s.handlers|;
    Extend(route, steps, Arrive);
    Extend(route, steps + [Arrive], Accept(i));
    Extend(route, steps + [Arrive] + [Accept(i)], FailPublish(i));
    assert (s.handlers + [Entered])[i := Publishing][i := Requeueing] == s.handlers + [Requeueing];
  }

  lemma WorkerTakesOver(route: Route, steps: seq<Step>, s: State, i: nat)
    requires Run(route, Initial(route), steps) == Some(s) && HandlerIs(s, i, Requeueing)
    requires s.worker.Selecting? && !s.cancelled && s.buffered < CHANNEL_CAPACITY
    ensures var t := Run(route, Initial(route), steps + [HandOver(i)] + [Check(false)] + [WorkerPublish]);
            t.Some? && t.value.published == s.published + [Publication(i, true)]
  {
    Extend(route, steps, HandOver(i));
    Extend(route, steps + [HandOver(i)], Check(false));
    Extend(route, steps + [HandOver(i)] + [Check(false)], WorkerPublish);
  }

  lemma Extend(route: Route, steps: seq<Step>, step: Step)
    ensures Run(route, Initial(route), steps + [step]) ==
            var s := Run(route, Initial(route), steps);
            if s.None? then None else Next(route, s.value, step)
  {
    assert (steps + [step])[..|steps|] == steps;
  }

  // Shutdown.

  function Weight(h: Handler): nat {
    match h
    case Entered => 4
    case Publishing => 3
    case Requeueing => 2
    case Sent => 1
    case Answered(_) => 0
  }

  function Weights(handlers: seq<Handler>): nat {
    if handlers == [] then 0 else Weights(handlers[..|handlers| - 1]) + Weight(handlers[|handlers| - 1])
  }

  function WorkerWeight(w: Worker): nat {
    match w
    case Waiting(_, _) => 4
    case Sending(_, _) => 3
    case Checking(_, _) => 2
    case Selecting => 1
    case Absent => 0
    case Exited => 0
  }

  /** Bounds the handler and worker steps that can still happen once the route is cancelled. */
  function Remaining(s: State): nat {
    Weights(s.handlers) + WorkerWeight(s.worker)
  }

  lemma {:induction false} WeightsUpdate(handlers: seq<Handler>, i: nat, h: Handler)
    requires i < |handlers|
    ensures Weights(handlers[i := h]) == Weights(handlers) - Weight(handlers[i]) + Weight(h)
  {
    var last := |handlers| - 1;
    if i == last {
      assert handlers[i := h][..last] == handlers[..last];
    } else {
      assert handlers[i := h][..last] == handlers[..last][i := h];
      WeightsUpdate(handlers[..last], i, h);
    }
  }

  predicate Internal(step: Step) {
    IsHandlerStep(step) || IsWorkerStep(step)
  }

  lemma HandlerStepProgress(route: Route, s: State, step: Step)
    requires s.cancelled && !s.phase.Serving? && IsHandlerStep(step) && HandlerNext(route, s, step).Some?
    ensures Remaining(HandlerNext(route, s, step).value) < Remaining(s)
  {
    var t := HandlerNext(route, s, step).value;
    WeightsUpdate(s.handlers, step.i, t.handlers[step.i]);
  }

  /** Once the route is cancelled and the lock is taken, every handler or worker step makes
      progress and no other step undoes it. */
  lemma StoppingMakesProgress(route: Route, s: State, step: Step)
    requires s.cancelled && !s.phase.Serving? && Next(route, s, step).Some?
    ensures var t := Next(route, s, step).value;
            && t.cancelled && !t.phase.Serving?
            && (Internal(step) ==> Remaining(t) < Remaining(s))
            && (!Internal(step) ==> Remaining(t) == Remaining(s))
  {
    if IsHandlerStep(step) {
      HandlerStepProgress(route, s, step);
    }
  }

  function InternalSteps(steps: seq<Step>): nat {
    if steps == [] then 0
    else InternalSteps(steps[..|steps| - 1]) + if Internal(steps[|steps| - 1]) then 1 else 0
  }

  /** However it is scheduled, shutdown waits for a bounded number of steps only ... */
  lemma {:induction false} ShutdownIsBounded(route: Route, s: State, steps: seq<Step>)
    requires s.cancelled && !s.phase.Serving? && Run(route, s, steps).Some?
    ensures var t := Run(route, s, steps).value;
            t.cancelled && !t.phase.Serving? && InternalSteps(steps) + Remaining(t) <= Remaining(s)
  {
    if steps != [] {
      var init := steps[..|steps| - 1];
      ShutdownIsBounded(route, s, init);
      StoppingMakesProgress(route, Run(route, s, init).value, steps[|steps| - 1]);
    }
  }

  /** ... and never stuck: until it may return, the worker itself can move. */
  lemma ShutdownIsNeverStuck(route: Route, s: State) returns (step: Step)
    requires s.phase.Stopping? && s.cancelled
    ensures Next(route, s, step).Some?
    ensures step.EndShutdown? <==> WorkerDone(s)
    ensures IsWorkerStep(step) <==> !WorkerDone(s)
  {
    match s.worker
    case Absent => step := EndShutdown;
    case Exited => step := EndShutdown;
    case Selecting => step := WorkerQuit;
    case Checking(_, _) => step := Check(false);
    case Waiting(_, _) => step := StopWaiting;
    case Sending(_, _) => step := WorkerFail;
  }

  /** A run in which nothing but shutdown's return is left to do ends with it enabled. */
  lemma ShutdownCompletes(route: Route, s: State, steps: seq<Step>)
    requires s.phase.Stopping? && s.cancelled && Run(route, s, steps).Some?
    requires forall step :: Internal(step) ==> Next(route, Run(route, s, steps).value, step).None?
    requires Run(route, s, steps).value.phase.Stopping?
    ensures Next(route, Run(route, s, steps).value, EndShutdown).Some?
  {
    ShutdownIsBounded(route, s, steps);
    var step := ShutdownIsNeverStuck(route, Run(route, s, steps).value);
  }

  /** Nor is a handler: once the route is cancelled, every request that is not answered has a step
      of its handler's own, whatever the channel and the worker do. */
  lemma HandlerIsNeverStuck(route: Route, s: State, i: nat) returns (step: Step)
    requires s.cancelled && i < |s.handlers| && !s.handlers[i].Answered?
    ensures IsHandlerStep(step) && Next(route, s, step).Some?
    ensures |Next(route, s, step).value.handlers| == |s.handlers|
    ensures Next(route, s, step).value.handlers[i] != s.handlers[i]
  {
    match s.handlers[i]
    case Entered => step := Reject(i, 401);
    case Publishing => step := FailPublish(i);
    case Sent => step := Answer(i);
    case Requeueing => step := Abandon(i);
  }

  /** So a run after which no handler or worker step is left has answered every request. */
  lemma ShutdownAnswersAll(route: Route, s: State, steps: seq<Step>, i: nat)
    requires s.phase.Stopping? && s.cancelled && Run(route, s, steps).Some?
    requires forall step :: Internal(step) ==> Next(route, Run(route, s, steps).value, step).None?
    requires i < |Run(route, s, steps).value.handlers|
    ensures Run(route, s, steps).value.handlers[i].Answered?
  {
    ShutdownIsBounded(route, s, steps);
    var t := Run(route, s, steps).value;
    if !t.handlers[i].Answered? {
      var step := HandlerIsNeverStuck(route, t, i);
    }
  }

  // Answers.

  /** What can become of a request whose payload was accepted: it is never answered with a 4xx, and
      it waits for the worker only if there is a retry policy. */
  predicate AcceptedHandler(route: Route, h: Handler) {
    match h
    case Entered => false
    case Publishing => true
    case Sent => true
    case Requeueing => route.policy.Some?
    case Answered(status) => status == 204 || status == 500
  }

  lemma {:induction false} AcceptedAnswers(route: Route, s: State, steps: seq<Step>, i: nat)
    requires i < |s.handlers| && AcceptedHandler(route, s.handlers[i]) && Run(route, s, steps).Some?
    ensures var t := Run(route, s, steps).value;
            i < |t.handlers| && AcceptedHandler(route, t.handlers[i])
  {
    if steps != [] {
      var init, step := steps[..|steps| - 1], steps[|steps| - 1];
      AcceptedAnswers(route, s, init, i);
      var t := Run(route, s, init).value;
      if IsHandlerStep(step) {
        HandlerStepAccepts(route, t, step, i);
      } else if IsWorkerStep(step) {
        WorkerLeavesHandlers(route, t, step);
      }
    }
  }

  lemma HandlerStepAccepts(route: Route, s: State, step: Step, i: nat)
    requires i < |s.handlers| && AcceptedHandler(route, s.handlers[i]) && HandlerNext(route, s, step).Some?
    ensures var t := HandlerNext(route, s, step).value;
            i < |t.handlers| && AcceptedHandler(route, t.handlers[i])
  {
  }

  lemma WorkerLeavesHandlers(route: Route, s: State, step: Step)
    requires WorkerNext(route, s, step).Some?
    ensures WorkerNext(route, s, step).value.handlers == s.handlers
  {
  }

  /** An accepted request whose event its handler did not publish is answered 500, with a retry
      policy or without: in no run with a 4xx. */
  lemma UnpublishedIsAnswered500(route: Route, before: seq<Step>, i: nat, after: seq<Step>)
    requires Run(route, Initial(route), before).Some? && HandlerIs(Run(route, Initial(route), before).value, i, Publishing)
    requires Run(route, Initial(route), before + after).Some?
    ensures var t := Run(route, Initial(route), before + after).value;
            && i < |t.handlers|
            && (t.handlers[i].Answered? && Publication(i, false) !in t.published ==> t.handlers[i] == Answered(500))
  {
    var s := Run(route, Initial(route), before).value;
    RunsConcat(route, Initial(route), before, s, after);
    AcceptedAnswers(route, s, after, i);
    OneEventPerRequest(route, before + after);
  }

  lemma {:induction false} RunsConcat(route: Route, s: State, a: seq<Step>, t: State, b: seq<Step>)
    requires Run(route, s, a) == Some(t)
    ensures Run(route, s, a + b) == Run(route, t, b)
  {
    if b == [] {
      assert a + b == a;
    } else {
      assert (a + b)[..|a + b| - 1] == a + b[..|b| - 1];
      RunsConcat(route, s, a, t, b[..|b| - 1]);
    }
  }

  // After shutdown.

  /** A returned shutdown means a finished worker, and a begun one a cancelled route. */
  predicate StoppedForGood(s: State) {
    (s.phase.Stopped? ==> WorkerDone(s)) && (!s.phase.Serving? ==> s.cancelled)
  }

  lemma HandlerStepsStopNothing(route: Route, s: State, step: Step)
    requires StoppedForGood(s) && HandlerNext(route, s, step).Some?
    ensures StoppedForGood(HandlerNext(route, s, step).value)
  {
  }

  lemma WorkerStepsStopNothing(route: Route, s: State, step: Step)
    requires StoppedForGood(s) && WorkerNext(route, s, step).Some?
    ensures StoppedForGood(WorkerNext(route, s, step).value)
  {
  }

  lemma {:induction false} RunsStopForGood(route: Route, steps: seq<Step>)
    requires Run(route, Initial(route), steps).Some?
    ensures StoppedForGood(Run(route, Initial(route), steps).value)
  {
    if steps != [] {
      var init, step := steps[..|steps| - 1], steps[|steps| - 1];
      RunsStopForGood(route, init);
      var s := Run(route, Initial(route), init).value;
      if IsHandlerStep(step) {
        HandlerStepsStopNothing(route, s, step);
      } else if IsWorkerStep(step) {
        WorkerStepsStopNothing(route, s, step);
      }
    }
  }

  /** What was published since is by handlers. */
  predicate OnlyHandlersSince(before: seq<Publication>, now: seq<Publication>) {
    before <= now && forall k :: |before| <= k < |now| ==> !now[k].byWorker
  }

  lemma SilentStep(route: Route, s: State, step: Step)
    requires s.phase.Stopped? && WorkerDone(s) && Next(route, s, step).Some?
    ensures var t := Next(route, s, step).value;
            t.phase.Stopped? && WorkerDone(t) && OnlyHandlersSince(s.published, t.published)
  {
  }

  /** After shutdown has returned, the worker is gone for good and publishes nothing more. */
  lemma {:induction false} SilentAfterShutdown(route: Route, s: State, steps: seq<Step>)
    requires s.phase.Stopped? && WorkerDone(s) && Run(route, s, steps).Some?
    ensures var t := Run(route, s, steps).value;
            t.phase.Stopped? && WorkerDone(t) && OnlyHandlersSince(s.published, t.published)
  {
    if steps != [] {
      var init, step := steps[..|steps| - 1], steps[|steps| - 1];
      SilentAfterShutdown(route, s, init);
      SilentStep(route, Run(route, s, init).value, step);
    }
  }
}
