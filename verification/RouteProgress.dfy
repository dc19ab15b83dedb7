/** What one webhook route gets done: while it serves, requests wait for nothing but room on the
    event channel; its worker retries as often as the policy says; and it can always be shut down. */
module RouteProgress {
  import opened Api
  import opened RouteProtocol
  import RetryDelays

  // The event channel.

  function Consumed(steps: seq<Step>): nat {
    if steps == [] then 0
    else Consumed(steps[..|steps| - 1]) + if steps[|steps| - 1].Consume? then 1 else 0
  }

  function SentByOthers(steps: seq<Step>): nat {
    if steps == [] then 0
    else SentByOthers(steps[..|steps| - 1]) + if steps[|steps| - 1].OthersPublish? then 1 else 0
  }

  lemma ChannelStep(route: Route, s: State, step: Step)
    requires Next(route, s, step).Some? && s.buffered <= 256
    ensures var t := Next(route, s, step).value;
            && t.buffered <= 256
            && t.buffered + |s.published| + (if step.Consume? then 1 else 0)
               == s.buffered + |t.published| + (if step.OthersPublish? then 1 else 0)
  {
  }

  /** No event is lost or made up: in every run the events on the channel and those taken from it
      are those of this route and of the others together, and never more than 256 wait. */
  lemma {:induction false} ChannelBalances(route: Route, steps: seq<Step>)
    requires Run(route, Initial(route), steps).Some?
    ensures var s := Run(route, Initial(route), steps).value;
            && s.buffered <= 256
            && s.buffered + Consumed(steps) == |s.published| + SentByOthers(steps)
  {
    if steps != [] {
      var init := steps[..|steps| - 1];
      ChannelBalances(route, init);
      ChannelStep(route, Run(route, Initial(route), init).value, steps[|steps| - 1]);
    }
  }

  /** The other users of the channel may put an event on it exactly while it is not full, and take
      one exactly while it is not empty. */
  lemma ChannelIsShared(route: Route, s: State)
    ensures Next(route, s, OthersPublish) == if s.buffered < 256 then Some(s.(buffered := s.buffered + 1)) else None
    ensures Next(route, s, Consume) == if s.buffered > 0 then Some(s.(buffered := s.buffered - 1)) else None
  {
  }

  // Requests while the route serves.

  /** An accepted request is published and answered 204 as soon as there is room on the channel,
      with a retry policy or without: its event was not published before and is now, once. */
  lemma AcceptedIsPublished(route: Route, steps: seq<Step>, i: nat)
    requires Run(route, Initial(route), steps).Some?
    requires var s := Run(route, Initial(route), steps).value; HandlerIs(s, i, Publishing) && s.buffered < 256
    ensures var s := Run(route, Initial(route), steps).value;
            && Run(route, Initial(route), steps + [Publish(i), Answer(i)])
               == Some(s.(handlers := s.handlers[i := Answered(204)],
                          published := s.published + [Publication(i, false)],
                          buffered := s.buffered + 1))
            && (forall p :: p in s.published ==> p.request != i)
  {
    var s := Run(route, Initial(route), steps).value;
    Extend(route, steps, Publish(i));
    Extend(route, steps + [Publish(i)], Answer(i));
    assert steps + [Publish(i)] + [Answer(i)] == steps + [Publish(i), Answer(i)];
    assert s.handlers[i := Sent][i := Answered(204)] == s.handlers[i := Answered(204)];
    RunsAccounted(route, steps);
    Unpublished(s, i);
  }

  lemma Arrives(route: Route, steps: seq<Step>, s: State)
    requires Run(route, Initial(route), steps) == Some(s) && s.phase.Serving?
    ensures Run(route, Initial(route), steps + [Arrive]) == Some(s.(handlers := s.handlers + [Entered]))
  {
    Extend(route, steps, Arrive);
  }

  /** A new request on a serving route, cancelled or not, can be turned away with each of four
      answers, which publishes nothing ... */
  lemma NewRequestIsRejected(route: Route, steps: seq<Step>, status: nat)
    requires Run(route, Initial(route), steps).Some? && Run(route, Initial(route), steps).value.phase.Serving?
    requires status in {400, 401, 413, 500}
    ensures var s := Run(route, Initial(route), steps).value;
            Run(route, Initial(route), steps + [Arrive] + [Reject(|s.handlers|, status)])
            == Some(s.(handlers := s.handlers + [Answered(status)]))
  {
    var s := Run(route, Initial(route), steps).value;
    Arrives(route, steps, s);
    Extend(route, steps + [Arrive], Reject(|s.handlers|, status));
    assert (s.handlers + [Entered])[|s.handlers| := Answered(status)] == s.handlers + [Answered(status)];
  }

  lemma IsAccepted(route: Route, steps: seq<Step>, s: State)
    requires Run(route, Initial(route), steps) == Some(s) && s.phase.Serving?
    ensures Run(route, Initial(route), steps + [Arrive] + [Accept(|s.handlers|)])
            == Some(s.(handlers := s.handlers + [Publishing]))
  {
    Arrives(route, steps, s);
    Extend(route, steps + [Arrive], Accept(|s.handlers|));
    assert (s.handlers + [Entered])[|s.handlers| := Publishing] == s.handlers + [Publishing];
  }

  /** ... and can be accepted, and is then published and answered 204 whenever there is room. */
  lemma NewRequestIsServed(route: Route, steps: seq<Step>)
    requires Run(route, Initial(route), steps).Some?
    requires var s := Run(route, Initial(route), steps).value; s.phase.Serving? && s.buffered < 256
    ensures var s := Run(route, Initial(route), steps).value;
            var i := |s.handlers|;
            Run(route, Initial(route), steps + [Arrive] + [Accept(i)] + [Publish(i), Answer(i)])
            == Some(s.(handlers := s.handlers + [Answered(204)],
                       published := s.published + [Publication(i, false)],
                       buffered := s.buffered + 1))
  {
    var s := Run(route, Initial(route), steps).value;
    var i := |s.handlers|;
    IsAccepted(route, steps, s);
    AcceptedIsPublished(route, steps + [Arrive] + [Accept(i)], i);
    assert (s.handlers + [Publishing])[i := Answered(204)] == s.handlers + [Answered(204)];
  }

  /** The step is one of a handler and takes request `i` further. */
  predicate Advances(route: Route, s: State, i: nat, step: Step)
    requires i < |s.handlers|
  {
    && IsHandlerStep(step)
    && Next(route, s, step).Some?
    && |Next(route, s, step).value.handlers| >= |s.handlers|
    && Next(route, s, step).value.handlers[i] != s.handlers[i]
  }

  /** Before cancellation a request that is not answered waits if and only if it is to be published
      and the channel is full: no policy, worker or other request holds it up. */
  lemma WaitsIffFull(route: Route, steps: seq<Step>, i: nat)
    requires !route.faulty && Run(route, Initial(route), steps).Some?
    requires var s := Run(route, Initial(route), steps).value;
             !s.cancelled && i < |s.handlers| && !s.handlers[i].Answered?
    ensures var s := Run(route, Initial(route), steps).value;
            (forall step :: !Advances(route, s, i, step)) <==> s.handlers[i].Publishing? && s.buffered == 256
  {
    var s := Run(route, Initial(route), steps).value;
    RunsIdle(route, steps);
    ChannelBalances(route, steps);
    assert s.handlers[i] in s.handlers;
    match s.handlers[i]
    case Entered => assert Advances(route, s, i, Accept(i));
    case Publishing => if s.buffered < 256 { assert Advances(route, s, i, Publish(i)); }
    case Sent => assert Advances(route, s, i, Answer(i));
  }

  /** Once the parent context ends, in any state, a request that was accepted may fail: it is
      answered 500 and not published, through the worker if there is a policy and an idle worker,
      without it otherwise. */
  lemma CancelledIsAnswered500(route: Route, s: State, i: nat)
    requires HandlerIs(s, i, Publishing)
    ensures var answered := s.(cancelled := true, handlers := s.handlers[i := Answered(500)]);
            && (route.policy.None? ==> Run(route, s, [CancelParent, FailPublish(i)]) == Some(answered))
            && (route.policy.Some? ==> Run(route, s, [CancelParent, FailPublish(i)] + [Abandon(i)]) == Some(answered))
            && (route.policy.Some? && s.worker.Selecting? ==>
                  Run(route, s, [CancelParent, FailPublish(i)] + [HandOver(i), Check(true)]) == Some(answered))
  {
    TwoSteps(route, s, CancelParent, FailPublish(i));
    if route.policy.Some? {
      var failed := s.(cancelled := true, handlers := s.handlers[i := Requeueing]);
      assert failed.handlers[i := Answered(500)] == s.handlers[i := Answered(500)];
      RunsConcat(route, s, [CancelParent, FailPublish(i)], failed, [Abandon(i)]);
      assert [Abandon(i)][..0] == [] && Run(route, failed, []) == Some(failed);
      RunsConcat(route, s, [CancelParent, FailPublish(i)], failed, [HandOver(i), Check(true)]);
      TwoSteps(route, failed, HandOver(i), Check(true));
    }
  }

  // The worker on a route whose publications may fail for other reasons than cancellation.

  /** An attempt of the worker that fails, `k` times. */
  function Failing(k: nat): seq<Step> {
    if k == 0 then [] else Failing(k - 1) + [Check(false), WorkerFail]
  }

  /** With a policy of `n` retries the worker gives up after exactly as many failed attempts, at
      least one and at most ten, and until then goes on with the next. */
  lemma {:induction false} GivesUpAfter(route: Route, s: State, i: nat, k: nat)
    requires route.faulty && route.policy.Some? && s.worker == Checking(i, 1) && !s.cancelled
    requires k <= RetryDelays.MaxAttempts(route.policy.value.maxRetries)
    ensures Run(route, s, Failing(k)) ==
            Some(s.(worker := if k < RetryDelays.MaxAttempts(route.policy.value.maxRetries) then Checking(i, k + 1)
                              else Selecting))
  {
    if k > 0 {
      GivesUpAfter(route, s, i, k - 1);
      var before := Run(route, s, Failing(k - 1)).value;
      assert Failing(k) == Failing(k - 1) + [Check(false), WorkerFail];
      RunsConcat(route, s, Failing(k - 1), before, [Check(false), WorkerFail]);
      TwoSteps(route, before, Check(false), WorkerFail);
    }
  }

  lemma TwoSteps(route: Route, s: State, a: Step, b: Step)
    ensures Run(route, s, [a, b]) ==
            var t := Next(route, s, a);
            if t.None? then None else Next(route, t.value, b)
  {
    assert [a, b][..1] == [a] && [a][..0] == [];
    assert Run(route, s, []) == Some(s);
    assert Run(route, s, [a]) == Next(route, s, a);
  }

  /** Any of these attempts may succeed instead, and then the event is published once. */
  lemma RetrySucceeds(route: Route, s: State, i: nat, k: nat)
    requires route.faulty && route.policy.Some? && s.worker == Checking(i, 1) && !s.cancelled && s.buffered < 256
    requires k < RetryDelays.MaxAttempts(route.policy.value.maxRetries)
    ensures Run(route, s, Failing(k) + [Check(false), WorkerPublish]) ==
            Some(s.(worker := Selecting, published := s.published + [Publication(i, true)], buffered := s.buffered + 1))
  {
    GivesUpAfter(route, s, i, k);
    var before := s.(worker := Checking(i, k + 1));
    RunsConcat(route, s, Failing(k), before, [Check(false), WorkerPublish]);
    AttemptPublishes(route, before, i, k + 1);
  }

  lemma AttemptPublishes(route: Route, s: State, i: nat, n: nat)
    requires s.worker == Checking(i, n) && !s.cancelled && s.buffered < 256
    ensures Run(route, s, [Check(false), WorkerPublish]) ==
            Some(s.(worker := Selecting, published := s.published + [Publication(i, true)], buffered := s.buffered + 1))
  {
    TwoSteps(route, s, Check(false), WorkerPublish);
  }

  predicate AttemptAllowed(route: Route, w: Worker) {
    w.Checking? || w.Waiting? || w.Sending? ==>
      route.policy.Some? && 1 <= w.attempt <= RetryDelays.MaxAttempts(route.policy.value.maxRetries)
  }

  lemma AttemptStep(route: Route, s: State, step: Step)
    requires AttemptAllowed(route, s.worker) && (s.worker.Absent? <==> route.policy.None?)
    requires Next(route, s, step).Some?
    ensures var w := Next(route, s, step).value.worker;
            AttemptAllowed(route, w) && (w.Absent? <==> route.policy.None?)
  {
  }

  /** In no run does it make more attempts than that for one request. */
  lemma {:induction false} AttemptsBounded(route: Route, steps: seq<Step>)
    requires Run(route, Initial(route), steps).Some?
    ensures var w := Run(route, Initial(route), steps).value.worker;
            AttemptAllowed(route, w) && (w.Absent? <==> route.policy.None?)
  {
    if steps != [] {
      var init := steps[..|steps| - 1];
      AttemptsBounded(route, init);
      AttemptStep(route, Run(route, Initial(route), init).value, steps[|steps| - 1]);
    }
  }

  /** Before cancellation a worker with a request has a step of its own, unless it is to publish and
      the channel is full on a route whose publications do not fail. */
  lemma WorkerWaitsIffFull(route: Route, steps: seq<Step>)
    requires Run(route, Initial(route), steps).Some?
    requires var s := Run(route, Initial(route), steps).value;
             !s.cancelled && (s.worker.Checking? || s.worker.Waiting? || s.worker.Sending?)
    ensures var s := Run(route, Initial(route), steps).value;
            (forall step :: IsWorkerStep(step) ==> Next(route, s, step).None?) <==>
            s.worker.Sending? && s.buffered == 256 && !route.faulty
  {
    var s := Run(route, Initial(route), steps).value;
    ChannelBalances(route, steps);
    match s.worker
    case Checking(_, _) => assert Next(route, s, Check(false)).Some?;
    case Waiting(_, _) => assert Next(route, s, TimerFires).Some?;
    case Sending(_, _) =>
      if s.buffered < 256 { assert Next(route, s, WorkerPublish).Some?; }
      if route.faulty { assert Next(route, s, WorkerFail).Some?; }
  }

  // Shutdown.

  /** The worker of a cancelled route ends by itself, publishing nothing. */
  lemma {:induction false} WorkerEnds(route: Route, s: State) returns (steps: seq<Step>)
    requires s.cancelled && s.phase.Stopping?
    ensures Run(route, s, steps) == Some(s.(worker := if s.worker.Absent? then Absent else Exited))
    ensures forall i :: 0 <= i < |steps| ==> IsWorkerStep(steps[i])
    decreases WorkerWeight(s.worker)
  {
    if WorkerDone(s) {
      steps := [];
    } else {
      var step :=
        if s.worker.Selecting? then WorkerQuit
        else if s.worker.Checking? then Check(false)
        else if s.worker.Waiting? then StopWaiting
        else WorkerFail;
      var next := Next(route, s, step).value;
      var rest := WorkerEnds(route, next);
      assert [step][..0] == [] && Run(route, s, []) == Some(s);
      RunsConcat(route, s, [step], next, rest);
      steps := [step] + rest;
    }
  }

  /** From every state of a serving route, whatever its worker and handlers are doing, shutdown can
      begin and return, with nothing but steps of the worker in between; no event is published. */
  lemma CanShutDown(route: Route, s: State) returns (steps: seq<Step>)
    requires s.phase.Serving?
    ensures Run(route, s, [BeginShutdown] + steps + [EndShutdown]) ==
            Some(s.(worker := if s.worker.Absent? then Absent else Exited, cancelled := true, phase := Stopped))
    ensures forall i :: 0 <= i < |steps| ==> IsWorkerStep(steps[i])
  {
    var begun := s.(cancelled := true, phase := Stopping);
    steps := WorkerEnds(route, begun);
    var ended := begun.(worker := if s.worker.Absent? then Absent else Exited);
    assert [BeginShutdown][..0] == [] && Run(route, s, []) == Some(s);
    assert Run(route, s, [BeginShutdown]) == Some(begun);
    RunsConcat(route, s, [BeginShutdown], begun, steps);
    assert [EndShutdown][..0] == [] && Run(route, ended, []) == Some(ended);
    RunsConcat(route, s, [BeginShutdown] + steps, ended, [EndShutdown]);
  }
}
