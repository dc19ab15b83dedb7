/** What the SQS pipeline gets done: a polled batch can go all the way to its events, producer and
    consumer wait for nothing but each other, and a stopped pipeline can end. */
module SqsProgress {
  import opened Api
  import opened SqsPipeline

  lemma {:induction false} RunsConcat(env: Env, s: State, a: seq<Step>, t: State, b: seq<Step>)
    requires Run(env, s, a) == Some(t)
    ensures Run(env, s, a + b) == Run(env, t, b)
  {
    if b == [] {
      assert a + b == a;
    } else {
      assert (a + b)[..|a + b| - 1] == a + b[..|b| - 1];
      RunsConcat(env, s, a, t, b[..|b| - 1]);
    }
  }

  lemma OneStep(env: Env, s: State, step: Step)
    ensures Run(env, s, [step]) == Next(env, s, step)
  {
    assert [step][..0] == [] && Run(env, s, []) == Some(s);
  }

  lemma OneMore(env: Env, s: State, a: seq<Step>, t: State, step: Step)
    requires Run(env, s, a) == Some(t)
    ensures Run(env, s, a + [step]) == Next(env, t, step)
  {
    RunsConcat(env, s, a, t, [step]);
    OneStep(env, t, step);
  }

  /** The same with the state it leads to. */
  lemma OneMoreTo(env: Env, s: State, a: seq<Step>, t: State, step: Step, u: State)
    requires Run(env, s, a) == Some(t) && Next(env, t, step) == Some(u)
    ensures Run(env, s, a + [step]) == Some(u)
  {
    OneMore(env, s, a, t, step);
  }

  // Messages.

  /** The message has a body that can be parsed. */
  predicate Parses(env: Env, m: Message) {
    m.body.Some? && env.parse(m.body.value).Some?
  }

  /** What becomes of the next message: with a body that can be parsed it is published as what it is
      parsed to or, once the parent context ended, dropped instead; any other is skipped. */
  lemma NextMessageExact(env: Env, s: State, batch: seq<Message>, k: nat)
    requires s.consumer == Working(batch, k) && k < |batch|
    ensures Next(env, s, Publish) ==
            if Parses(env, batch[k])
            then Some(s.(consumer := Working(batch, k + 1), published := s.published + [env.parse(batch[k].body.value).value]))
            else None
    ensures Next(env, s, DropMessage) ==
            if Parses(env, batch[k]) && s.parentDone then Some(s.(consumer := Working(batch, k + 1))) else None
    ensures Next(env, s, SkipMessage) ==
            if Parses(env, batch[k]) then None else Some(s.(consumer := Working(batch, k + 1)))
  {
  }

  /** The events are those of the messages `at`: the ones whose body can be parsed, all of them and in
      order, each parsed to its event. */
  ghost predicate AreParsed(env: Env, events: seq<RotationEvent>, messages: seq<Message>, at: seq<nat>) {
    && |at| == |events|
    && (forall j, k :: 0 <= j < k < |at| ==> at[j] < at[k])
    && (forall i: nat :: i in at <==> i < |messages| && Parses(env, messages[i]))
    && (forall k :: 0 <= k < |at| ==>
          at[k] < |messages| && Parses(env, messages[at[k]]) && events[k] == env.parse(messages[at[k]].body.value).value)
  }

  lemma {:induction false} EventsAreParsed(env: Env, messages: seq<Message>) returns (at: seq<nat>)
    ensures AreParsed(env, EventsOf(env, messages), messages, at)
  {
    at := [];
    if messages != [] {
      var n := |messages| - 1;
      var init, m := messages[..n], messages[n];
      at := EventsAreParsed(env, init);
      assert init + [m] == messages;
      EventsAppend(env, init, m);
      if Parses(env, m) {
        OneMoreParsed(env, EventsOf(env, init), init, at, m);
        at := at + [n];
      } else {
        NoMoreParsed(env, EventsOf(env, init), init, at, m);
        assert EventsOf(env, init) + [] == EventsOf(env, init);
      }
    }
  }

  lemma OneMoreParsed(env: Env, events: seq<RotationEvent>, messages: seq<Message>, at: seq<nat>, m: Message)
    requires AreParsed(env, events, messages, at) && Parses(env, m)
    ensures AreParsed(env, events + [env.parse(m.body.value).value], messages + [m], at + [|messages|])
  {
    var more := at + [|messages|];
    forall i: nat ensures i in more <==> i < |messages| + 1 && Parses(env, (messages + [m])[i]) {
      assert i in more <==> i in at || i == |messages|;
    }
  }

  lemma NoMoreParsed(env: Env, events: seq<RotationEvent>, messages: seq<Message>, at: seq<nat>, m: Message)
    requires AreParsed(env, events, messages, at) && !Parses(env, m)
    ensures AreParsed(env, events, messages + [m], at)
  {
    forall i: nat ensures i in at <==> i < |messages| + 1 && Parses(env, (messages + [m])[i]) {
      assert i < |messages| ==> (messages + [m])[i] == messages[i];
    }
  }

  /** In every run the events published with a live parent context are, while the consumer is between
      batches, exactly those of the messages handed over whose body can be parsed, in order. */
  lemma PublishedIsParsed(env: Env, steps: seq<Step>) returns (at: seq<nat>)
    requires Run(env, INITIAL, steps).Some?
    requires var s := Run(env, INITIAL, steps).value; !s.parentDone && !s.consumer.Working?
    ensures var s := Run(env, INITIAL, steps).value; AreParsed(env, s.published, Flatten(s.handed), at)
  {
    PublishedFollowsHanded(env, steps);
    at := EventsAreParsed(env, Flatten(Run(env, INITIAL, steps).value.handed));
  }

  // A batch on its way.

  function Deletes(k: nat): seq<Step> {
    if k == 0 then [] else Deletes(k - 1) + [Delete]
  }

  /** The state after the first `k` deletions. */
  function DeletedTo(s: State, batch: seq<Message>, k: nat): State
    requires k <= |batch|
  {
    s.(producer := Deleting(batch, k), deleted := s.deleted + batch[..k])
  }

  lemma DeleteOne(env: Env, s: State, batch: seq<Message>, k: nat)
    requires k < |batch|
    ensures Next(env, DeletedTo(s, batch, k), Delete) == Some(DeletedTo(s, batch, k + 1))
  {
    assert s.deleted + batch[..k] + [batch[k]] == s.deleted + batch[..k + 1];
  }

  lemma DeletesStep(env: Env, s: State, batch: seq<Message>, k: nat)
    requires k < |batch| && Run(env, s, Deletes(k)) == Some(DeletedTo(s, batch, k))
    ensures Run(env, s, Deletes(k + 1)) == Some(DeletedTo(s, batch, k + 1))
  {
    DeleteOne(env, s, batch, k);
    OneMoreTo(env, s, Deletes(k), DeletedTo(s, batch, k), Delete, DeletedTo(s, batch, k + 1));
  }

  lemma DeletedToNone(s: State, batch: seq<Message>)
    requires s.producer == Deleting(batch, 0)
    ensures DeletedTo(s, batch, 0) == s
  {
    assert s.deleted + batch[..0] == s.deleted;
  }

  lemma {:induction false} DeletesRun(env: Env, s: State, batch: seq<Message>, k: nat)
    requires DeletedTo(s, batch, 0) == s && k <= |batch|
    ensures Run(env, s, Deletes(k)) == Some(DeletedTo(s, batch, k))
  {
    if k > 0 {
      DeletesRun(env, s, batch, k - 1);
      DeletesStep(env, s, batch, k - 1);
    }
  }

  /** What the consumer does with the first `k` messages: those that can be parsed are published. */
  function Handling(env: Env, batch: seq<Message>, k: nat): seq<Step>
    requires k <= |batch|
  {
    if k == 0 then []
    else Handling(env, batch, k - 1) + [if EventOf(env, batch[k - 1]).Some? then Publish else SkipMessage]
  }

  /** The state after the first `k` messages. */
  function HandledTo(env: Env, s: State, batch: seq<Message>, k: nat): State
    requires k <= |batch|
  {
    s.(consumer := Working(batch, k), published := s.published + EventsOf(env, batch[..k]))
  }

  lemma HandleOne(env: Env, s: State, batch: seq<Message>, k: nat)
    requires k < |batch|
    ensures Next(env, HandledTo(env, s, batch, k), if EventOf(env, batch[k]).Some? then Publish else SkipMessage)
            == Some(HandledTo(env, s, batch, k + 1))
  {
    assert batch[..k + 1] == batch[..k] + [batch[k]];
    EventsAppend(env, batch[..k], batch[k]);
    var e := EventOf(env, batch[k]);
    if e.Some? {
      assert s.published + EventsOf(env, batch[..k]) + [e.value] == s.published + (EventsOf(env, batch[..k]) + [e.value]);
    } else {
      assert EventsOf(env, batch[..k]) + [] == EventsOf(env, batch[..k]);
    }
  }

  lemma HandlingStep(env: Env, s: State, batch: seq<Message>, k: nat)
    requires k < |batch| && Run(env, s, Handling(env, batch, k)) == Some(HandledTo(env, s, batch, k))
    ensures Run(env, s, Handling(env, batch, k + 1)) == Some(HandledTo(env, s, batch, k + 1))
  {
    var step := if EventOf(env, batch[k]).Some? then Publish else SkipMessage;
    HandleOne(env, s, batch, k);
    OneMoreTo(env, s, Handling(env, batch, k), HandledTo(env, s, batch, k), step, HandledTo(env, s, batch, k + 1));
  }

  lemma HandledToNone(env: Env, s: State, batch: seq<Message>)
    requires s.consumer == Working(batch, 0)
    ensures HandledTo(env, s, batch, 0) == s
  {
    assert s.published + EventsOf(env, batch[..0]) == s.published;
  }

  lemma {:induction false} HandlingRuns(env: Env, s: State, batch: seq<Message>, k: nat)
    requires HandledTo(env, s, batch, 0) == s && k <= |batch|
    ensures Run(env, s, Handling(env, batch, k)) == Some(HandledTo(env, s, batch, k))
  {
    if k > 0 {
      HandlingRuns(env, s, batch, k - 1);
      HandlingStep(env, s, batch, k - 1);
    }
  }

  /** Everything that happens to a batch. */
  function WholeWay(env: Env, batch: seq<Message>): seq<Step> {
    ToConsumer(batch) + Handling(env, batch, |batch|) + [FinishBatch]
  }

  function ToConsumer(batch: seq<Message>): seq<Step> {
    [PollReturns(batch)] + Deletes(|batch|) + [FinishDeletes] + [HandOver]
  }

  /** From any state in which the producer polls and the consumer is free, stopped or not, a nonempty
      batch can go all the way: every message is deleted, the batch is handed over, and exactly the
      events of its messages are published, in order. */
  lemma BatchGoesThrough(env: Env, s: State, batch: seq<Message>)
    requires s.producer.Polling? && s.consumer.Receiving? && batch != []
    ensures Run(env, s, WholeWay(env, batch)) ==
            Some(s.(producer := Looping, received := s.received + [batch], deleted := s.deleted + batch,
                    handed := s.handed + [batch], published := s.published + EventsOf(env, batch)))
  {
    var handed := ReachesConsumer(env, s, batch);
    var steps := ToConsumer(batch);
    HandledToNone(env, handed, batch);
    HandlingRuns(env, handed, batch, |batch|);
    RunsConcat(env, s, steps, handed, Handling(env, batch, |batch|));
    BatchFinished(env, handed, batch);
    OneMoreTo(env, s, steps + Handling(env, batch, |batch|), HandledTo(env, handed, batch, |batch|), FinishBatch,
              handed.(consumer := Receiving, published := handed.published + EventsOf(env, batch)));
  }

  lemma BatchFinished(env: Env, s: State, batch: seq<Message>)
    ensures Next(env, HandledTo(env, s, batch, |batch|), FinishBatch)
            == Some(s.(consumer := Receiving, published := s.published + EventsOf(env, batch)))
  {
    assert batch[..|batch|] == batch;
  }

  lemma ReachesConsumer(env: Env, s: State, batch: seq<Message>) returns (t: State)
    requires s.producer.Polling? && s.consumer.Receiving? && batch != []
    ensures t == s.(producer := Looping, consumer := Working(batch, 0), received := s.received + [batch],
                    deleted := s.deleted + batch, handed := s.handed + [batch])
    ensures Run(env, s, ToConsumer(batch)) == Some(t)
  {
    var polled := s.(producer := Deleting(batch, 0), received := s.received + [batch]);
    DeletesAll(env, s, batch, polled);
    HandsOver(env, polled, batch);
    var offering := polled.(producer := Offering(batch), deleted := s.deleted + batch);
    t := Next(env, offering, HandOver).value;
    var steps := [PollReturns(batch)] + Deletes(|batch|);
    OneMoreTo(env, s, steps, DeletedTo(polled, batch, |batch|), FinishDeletes, offering);
    OneMoreTo(env, s, steps + [FinishDeletes], offering, HandOver, t);
  }

  lemma DeletesAll(env: Env, s: State, batch: seq<Message>, polled: State)
    requires Next(env, s, PollReturns(batch)) == Some(polled) && polled.producer == Deleting(batch, 0)
    ensures Run(env, s, [PollReturns(batch)] + Deletes(|batch|)) == Some(DeletedTo(polled, batch, |batch|))
  {
    OneStep(env, s, PollReturns(batch));
    DeletedToNone(polled, batch);
    DeletesRun(env, polled, batch, |batch|);
    RunsConcat(env, s, [PollReturns(batch)], polled, Deletes(|batch|));
  }

  lemma HandsOver(env: Env, s: State, batch: seq<Message>)
    requires s.consumer.Receiving? && batch != []
    ensures var offering := s.(producer := Offering(batch), deleted := s.deleted + batch);
            && Next(env, DeletedTo(s, batch, |batch|), FinishDeletes) == Some(offering)
            && Next(env, offering, HandOver) ==
               Some(offering.(producer := Looping, consumer := Working(batch, 0), handed := s.handed + [batch]))
  {
    assert batch[..|batch|] == batch;
  }

  /** An empty poll or a failed one costs nothing but time: the producer polls again. */
  lemma PollsAgain(env: Env, s: State)
    requires s.producer.Polling? && !s.stopped
    ensures Run(env, s, [PollReturns([])] + [FinishDeletes] + [CheckContext]) == Some(s)
    ensures Run(env, s, [PollFails] + [BackOffEnds] + [CheckContext]) == Some(s.(errorPending := true))
  {
    OneStep(env, s, PollReturns([]));
    OneMore(env, s, [PollReturns([])], s.(producer := Deleting([], 0)), FinishDeletes);
    OneMore(env, s, [PollReturns([])] + [FinishDeletes], s.(producer := Looping), CheckContext);
    OneStep(env, s, PollFails);
    OneMore(env, s, [PollFails], s.(producer := BackingOff, errorPending := true), BackOffEnds);
    OneMore(env, s, [PollFails] + [BackOffEnds], s.(producer := Looping, errorPending := true), CheckContext);
  }

  // Who waits for whom.

  predicate MovesProducer(step: Step) {
    IsProducerStep(step) || step.HandOver?
  }

  predicate MovesConsumer(step: Step) {
    !IsProducerStep(step) && !step.Stop? && !step.CancelParent?
  }

  /** While it is not stopped, the producer waits if and only if it offers a batch and the consumer is
      not ready for one. */
  lemma ProducerWaitsIff(env: Env, s: State)
    requires !s.stopped && !s.producer.Ended?
    ensures (forall step :: MovesProducer(step) ==> Next(env, s, step).None?) <==>
            s.producer.Offering? && !s.consumer.Receiving?
  {
    match s.producer
    case Looping => assert Next(env, s, CheckContext).Some?;
    case Polling => assert Next(env, s, PollFails).Some?;
    case Deleting(batch, k) => assert Next(env, s, if k < |batch| then Delete else FinishDeletes).Some?;
    case Offering(_) => if s.consumer.Receiving? { assert Next(env, s, HandOver).Some?; }
    case BackingOff => assert Next(env, s, BackOffEnds).Some?;
    case ClosingMessages => assert Next(env, s, CloseMessages).Some?;
    case ClosingErrors => assert Next(env, s, CloseErrors).Some?;
  }

  /** The consumer waits if and only if it is between batches and there is nothing to receive: no
      batch, no error, and no channel that was closed. */
  lemma ConsumerWaitsIff(env: Env, s: State)
    requires !s.consumer.Left?
    ensures (forall step :: MovesConsumer(step) ==> Next(env, s, step).None?) <==>
            && s.consumer.Receiving?
            && !s.producer.Offering? && !s.errorPending && !s.messagesClosed && !s.errorsClosed
  {
    match s.consumer
    case Working(batch, k) =>
      var step := if k >= |batch| then FinishBatch else if EventOf(env, batch[k]).Some? then Publish else SkipMessage;
      assert Next(env, s, step).Some?;
    case Receiving =>
      if s.producer.Offering? { assert Next(env, s, HandOver).Some?; }
      if s.errorPending { assert Next(env, s, TakeError).Some?; }
      if s.messagesClosed { assert Next(env, s, SeeMessagesClosed).Some?; }
      if s.errorsClosed && !s.errorPending { assert Next(env, s, SeeErrorsClosed).Some?; }
  }

  // A stopped pipeline.

  /** The listener may be stopped at any time, and its parent context may end at any time, which stops
      it as well. */
  lemma StopsAnyTime(env: Env, s: State)
    ensures Next(env, s, Stop) == Some(s.(stopped := true))
    ensures Next(env, s, CancelParent) == Some(s.(stopped := true, parentDone := true))
  {
  }

  predicate ClosesMessagesFirst(s: State) {
    s.producer.ClosingErrors? || s.producer.Ended? ==> s.messagesClosed
  }

  lemma {:induction false} RunsCloseMessagesFirst(env: Env, steps: seq<Step>)
    requires Run(env, INITIAL, steps).Some?
    ensures ClosesMessagesFirst(Run(env, INITIAL, steps).value)
  {
    if steps != [] {
      RunsCloseMessagesFirst(env, steps[..|steps| - 1]);
      ClosingStep(env, Run(env, INITIAL, steps[..|steps| - 1]).value, steps[|steps| - 1]);
    }
  }

  lemma ClosingStep(env: Env, s: State, step: Step)
    requires ClosesMessagesFirst(s) && Next(env, s, step).Some?
    ensures ClosesMessagesFirst(Next(env, s, step).value)
  {
  }

  lemma {:induction false} ProducerEnds(env: Env, s: State) returns (steps: seq<Step>, t: State)
    requires s.stopped && ClosesMessagesFirst(s)
    ensures Run(env, s, steps) == Some(t) && t.producer.Ended? && t.messagesClosed && t.consumer == s.consumer
    ensures forall i :: 0 <= i < |steps| ==> IsProducerStep(steps[i])
    decreases StepsLeft(s.producer)
  {
    if s.producer.Ended? {
      steps, t := [], s;
    } else {
      var step := StoppedProducerNeverBlocks(s);
      step := if s.producer.Polling? then PollFails else step;
      var next := Next(env, s, step).value;
      StoppedStep(env, s, step);
      ClosingStep(env, s, step);
      ProducerLeavesConsumer(s, step);
      var rest;
      rest, t := ProducerEnds(env, next);
      OneStep(env, s, step);
      RunsConcat(env, s, [step], next, rest);
      steps := [step] + rest;
    }
  }

  lemma {:induction false} ConsumerEnds(env: Env, s: State) returns (steps: seq<Step>, t: State)
    requires s.messagesClosed && s.producer.Ended?
    ensures Run(env, s, steps) == Some(t) && t.consumer.Left? && t.producer.Ended?
    decreases s.consumer.Working?, if s.consumer.Working? && s.consumer.done < |s.consumer.batch|
                                   then |s.consumer.batch| - s.consumer.done else 0
  {
    match s.consumer
    case Left => steps, t := [], s;
    case Receiving =>
      steps, t := [SeeMessagesClosed], s.(consumer := Left);
      OneStep(env, s, SeeMessagesClosed);
    case Working(batch, k) =>
      var step := if k >= |batch| then FinishBatch else if EventOf(env, batch[k]).Some? then Publish else SkipMessage;
      var next := Next(env, s, step).value;
      var rest;
      rest, t := ConsumerEnds(env, next);
      OneStep(env, s, step);
      RunsConcat(env, s, [step], next, rest);
      steps := [step] + rest;
  }

  /** After any run, a pipeline that was stopped can end: the producer by itself and then the consumer,
      whatever they were doing. */
  lemma StoppedPipelineEnds(env: Env, steps: seq<Step>) returns (more: seq<Step>)
    requires Run(env, INITIAL, steps).Some? && Run(env, INITIAL, steps).value.stopped
    ensures var t := Run(env, INITIAL, steps + more);
            t.Some? && t.value.producer.Ended? && t.value.consumer.Left?
  {
    var s := Run(env, INITIAL, steps).value;
    RunsCloseMessagesFirst(env, steps);
    var a, t := ProducerEnds(env, s);
    var b, u := ConsumerEnds(env, t);
    more := a + b;
    RunsConcat(env, s, a, t, b);
    RunsConcat(env, INITIAL, steps, s, more);
  }
}
