/** The SQS listener as a protocol: a producer that polls, deletes and hands over batches on an
    unbuffered channel, and a consumer that parses and publishes, interleaved with cancellation. */
module SqsPipeline {
  import opened Api

  datatype Message = Message(receipt: string, body: Option<string>)

  datatype RotationEvent = RotationEvent(secretIdentifier: string, rotationTimestamp: string)

  /** `parse` stands for decoding a message body; it may fail. */
  datatype Env = Env(parse: string -> Option<RotationEvent>)

  datatype Producer =
    | Looping
    | Polling
    | Deleting(batch: seq<Message>, done: nat)
    | Offering(batch: seq<Message>)
    | BackingOff
    | ClosingMessages
    | ClosingErrors
    | Ended

  datatype Consumer = Receiving | Working(batch: seq<Message>, done: nat) | Left

  /** `received` lists the nonempty batches polled, `deleted` the messages whose deletion was
      attempted, `handed` the batches handed over, `published` the events, each in order.
      `stopped` is the listener's own context, `parentDone` that of its parent. */
  datatype State = State(
    producer: Producer,
    consumer: Consumer,
    received: seq<seq<Message>>,
    deleted: seq<Message>,
    handed: seq<seq<Message>>,
    published: seq<RotationEvent>,
    stopped: bool,
    parentDone: bool,
    errorPending: bool,
    messagesClosed: bool,
    errorsClosed: bool)

  const INITIAL := State(Looping, Receiving, [], [], [], [], false, false, false, false, false)

  datatype Step =
    | CheckContext
    | PollFails
    | PollReturns(batch: seq<Message>)
    | Delete
    | FinishDeletes
    | BackOffEnds
    | BackOffStopped
    | OfferStopped
    | CloseMessages
    | CloseErrors
    | HandOver
    | SkipMessage
    | Publish
    | DropMessage
    | FinishBatch
    | TakeError
    | SeeMessagesClosed
    | SeeErrorsClosed
    | Stop
    | CancelParent

  function EventOf(env: Env, m: Message): Option<RotationEvent> {
    if m.body.Some? then env.parse(m.body.value) else None
  }

  function ProducerNext(s: State, step: Step): Option<State> {
    match (step, s.producer)
    case (CheckContext, Looping) =>
      Some(s.(producer := if s.stopped then ClosingMessages else Polling))
    case (PollFails, Polling) =>
      Some(s.(producer := BackingOff, errorPending := true))
    case (PollReturns(batch), Polling) =>
      Some(s.(producer := Deleting(batch, 0), received := if batch == [] then s.received else s.received + [batch]))
    case (Delete, Deleting(batch, k)) =>
      if k < |batch| then Some(s.(producer := Deleting(batch, k + 1), deleted := s.deleted + [batch[k]])) else None
    case (FinishDeletes, Deleting(batch, k)) =>
      if k >= |batch| then Some(s.(producer := if batch == [] then Looping else Offering(batch))) else None
    case (BackOffEnds, BackingOff) => Some(s.(producer := Looping))
    case (BackOffStopped, BackingOff) => if s.stopped then Some(s.(producer := ClosingMessages)) else None
    case (OfferStopped, Offering(batch)) => if s.stopped then Some(s.(producer := ClosingMessages)) else None
    case (CloseMessages, ClosingMessages) => Some(s.(producer := ClosingErrors, messagesClosed := true))
    case (CloseErrors, ClosingErrors) => Some(s.(producer := Ended, errorsClosed := true))
    case _ => None
  }

  function ConsumerNext(env: Env, s: State, step: Step): Option<State> {
    match (step, s.consumer)
    case (SkipMessage, Working(batch, k)) =>
      if k < |batch| && EventOf(env, batch[k]).None? then Some(s.(consumer := Working(batch, k + 1))) else None
    case (Publish, Working(batch, k)) =>
      if k < |batch| && EventOf(env, batch[k]).Some? then
        Some(s.(consumer := Working(batch, k + 1), published := s.published + [EventOf(env, batch[k]).value]))
      else None
    case (DropMessage, Working(batch, k)) =>
      if k < |batch| && EventOf(env, batch[k]).Some? && s.parentDone then Some(s.(consumer := Working(batch, k + 1)))
      else None
    case (FinishBatch, Working(batch, k)) =>
      if k >= |batch| then Some(s.(consumer := Receiving)) else None
    case (TakeError, Receiving) =>
      if s.errorPending then Some(s.(errorPending := false)) else None
    case (SeeMessagesClosed, Receiving) =>
      if s.messagesClosed then Some(s.(consumer := Left)) else None
    case (SeeErrorsClosed, Receiving) =>
      if s.errorsClosed && !s.errorPending then Some(s.(consumer := Left)) else None
    case _ => None
  }

  function Next(env: Env, s: State, step: Step): Option<State> {
    match step
    case HandOver =>
      if s.producer.Offering? && s.consumer.Receiving? then
        Some(s.(producer := Looping, consumer := Working(s.producer.batch, 0), handed := s.handed + [s.producer.batch]))
      else None
    case Stop => Some(s.(stopped := true))
    case CancelParent => Some(s.(stopped := true, parentDone := true))
    case _ => if IsProducerStep(step) then ProducerNext(s, step) else ConsumerNext(env, s, step)
  }

  predicate IsProducerStep(step: Step) {
    || step.CheckContext? || step.PollFails? || step.PollReturns? || step.Delete? || step.FinishDeletes?
    || step.BackOffEnds? || step.BackOffStopped? || step.OfferStopped? || step.CloseMessages? || step.CloseErrors?
  }

  function Run(env: Env, s: State, steps: seq<Step>): Option<State> {
    if steps == [] then Some(s)
    else
      var before := Run(env, s, steps[..|steps| - 1]);
      if before.None? then None else Next(env, before.value, steps[|steps| - 1])
  }

  function Flatten(batches: seq<seq<Message>>): seq<Message> {
    if batches == [] then [] else Flatten(batches[..|batches| - 1]) + batches[|batches| - 1]
  }

  /** The events of the messages that can be parsed, in order. */
  function EventsOf(env: Env, messages: seq<Message>): seq<RotationEvent> {
    if messages == [] then []
    else
      var last := EventOf(env, messages[|messages| - 1]);
      EventsOf(env, messages[..|messages| - 1]) + if last.Some? then [last.value] else []
  }

  /** `a` is `b` with some elements left out. */
  predicate IsSubsequence<T(==)>(a: seq<T>, b: seq<T>) {
    if a == [] then true
    else if b == [] then false
    else if a[|a| - 1] == b[|b| - 1] then
      IsSubsequence(a[..|a| - 1], b[..|b| - 1]) || IsSubsequence(a, b[..|b| - 1])
    else IsSubsequence(a, b[..|b| - 1])
  }

  // Batches: handed over in order, at most the last one missing, deletions first.

  /** The batch that was polled and not handed over, if any. */
  ghost predicate Pending(s: State, batch: seq<Message>) {
    match s.producer
    case Deleting(b, k) =>
      b == batch && k <= |b| && s.deleted == Flatten(s.handed) + b[..k]
    case Offering(b) =>
      b == batch && b != [] && s.deleted == Flatten(s.handed) + b
    case _ =>
      (s.producer.ClosingMessages? || s.producer.ClosingErrors? || s.producer.Ended? || batch == [])
      && s.deleted == Flatten(s.handed) + batch
  }

  ghost predicate Holds(s: State, batch: seq<Message>) {
    Pending(s, batch) && s.received == s.handed + if batch == [] then [] else [batch]
  }

  ghost predicate BatchesHold(s: State) {
    exists batch :: Holds(s, batch)
  }

  lemma FlattenAppend(batches: seq<seq<Message>>, batch: seq<Message>)
    ensures Flatten(batches + [batch]) == Flatten(batches) + batch
  {
    assert (batches + [batch])[..|batches|] == batches;
  }

  lemma ProducerKeepsBatches(s: State, step: Step)
    requires BatchesHold(s) && ProducerNext(s, step).Some?
    ensures BatchesHold(ProducerNext(s, step).value)
  {
    var t := ProducerNext(s, step).value;
    var batch :| Holds(s, batch);
    assert Holds(t, if step.PollReturns? then step.batch else batch);
  }

  lemma ConsumerLeavesProducer(env: Env, s: State, step: Step)
    requires ConsumerNext(env, s, step).Some?
    ensures var t := ConsumerNext(env, s, step).value;
            && t.producer == s.producer && t.received == s.received && t.deleted == s.deleted
            && t.handed == s.handed && t.stopped == s.stopped && t.parentDone == s.parentDone
  {
  }

  lemma NothingPending(s: State)
    requires s.producer.Looping? && s.deleted == Flatten(s.handed) && s.received == s.handed
    ensures BatchesHold(s)
  {
    assert Flatten(s.handed) + [] == Flatten(s.handed) && s.handed + [] == s.handed;
    assert Holds(s, []);
  }

  lemma HandOverKeepsBatches(env: Env, s: State)
    requires BatchesHold(s) && Next(env, s, HandOver).Some?
    ensures BatchesHold(Next(env, s, HandOver).value)
  {
    var batch :| Holds(s, batch);
    FlattenAppend(s.handed, batch);
    NothingPending(Next(env, s, HandOver).value);
  }

  /** Whatever leaves the producer and its records alone keeps the batches in order. */
  lemma RestKeepsBatches(s: State, t: State)
    requires BatchesHold(s)
    requires t.producer == s.producer && t.received == s.received && t.deleted == s.deleted && t.handed == s.handed
    ensures BatchesHold(t)
  {
    var batch :| Holds(s, batch);
    assert Holds(t, batch);
  }

  lemma NextKeepsBatches(env: Env, s: State, step: Step)
    requires BatchesHold(s) && Next(env, s, step).Some?
    ensures BatchesHold(Next(env, s, step).value)
  {
    var t := Next(env, s, step).value;
    if step.HandOver? {
      HandOverKeepsBatches(env, s);
    } else if IsProducerStep(step) {
      ProducerKeepsBatches(s, step);
    } else {
      if ConsumerNext(env, s, step).Some? {
        ConsumerLeavesProducer(env, s, step);
      }
      RestKeepsBatches(s, t);
    }
  }

  lemma {:induction false} RunsKeepBatches(env: Env, steps: seq<Step>)
    requires Run(env, INITIAL, steps).Some?
    ensures BatchesHold(Run(env, INITIAL, steps).value)
  {
    if steps == [] {
      NothingPending(INITIAL);
    } else {
      RunsKeepBatches(env, steps[..|steps| - 1]);
      NextKeepsBatches(env, Run(env, INITIAL, steps[..|steps| - 1]).value, steps[|steps| - 1]);
    }
  }

  /** In every state of every run the batches handed over are the nonempty batches received, in
      order, missing at most the last, and every message handed over had its deletion attempted
      before, in the same order. */
  lemma HandedIsReceivedPrefix(env: Env, steps: seq<Step>)
    requires Run(env, INITIAL, steps).Some?
    ensures var s := Run(env, INITIAL, steps).value;
            && s.handed <= s.received
            && |s.received| <= |s.handed| + 1
            && Flatten(s.handed) <= s.deleted
  {
    RunsKeepBatches(env, steps);
    var s := Run(env, INITIAL, steps).value;
    var batch :| Holds(s, batch);
  }

  // Events.

  /** The messages of its batch that the consumer has still to process. */
  function Unfinished(c: Consumer): seq<Message> {
    if c.Working? && c.done <= |c.batch| then c.batch[c.done..] else []
  }

  /** The published events are those of the finished messages, some left out only after the parent
      context ended. */
  predicate Follows(env: Env, published: seq<RotationEvent>, parentDone: bool, finished: seq<Message>) {
    && IsSubsequence(published, EventsOf(env, finished))
    && (!parentDone ==> published == EventsOf(env, finished))
  }

  /** `finished` holds the messages handed over that the consumer is done with. */
  ghost predicate Progress(env: Env, s: State, finished: seq<Message>) {
    && Flatten(s.handed) == finished + Unfinished(s.consumer)
    && (s.consumer.Working? ==> s.consumer.done <= |s.consumer.batch|)
    && Follows(env, s.published, s.parentDone, finished)
  }

  ghost predicate EventsHold(env: Env, s: State) {
    exists finished :: Progress(env, s, finished)
  }

  lemma EventsAppend(env: Env, messages: seq<Message>, m: Message)
    ensures EventsOf(env, messages + [m]) ==
            EventsOf(env, messages) + if EventOf(env, m).Some? then [EventOf(env, m).value] else []
  {
    assert (messages + [m])[..|messages|] == messages;
  }

  lemma SubsequenceBoth<T>(a: seq<T>, b: seq<T>, x: T)
    requires IsSubsequence(a, b)
    ensures IsSubsequence(a + [x], b + [x])
  {
    assert (a + [x])[..|a|] == a && (b + [x])[..|b|] == b;
  }

  lemma SubsequenceSkip<T>(a: seq<T>, b: seq<T>, x: T)
    requires IsSubsequence(a, b)
    ensures IsSubsequence(a, b + [x])
  {
    assert (b + [x])[..|b|] == b;
  }

  /** A message without an event is skipped, one with an event is published or, once the parent
      context ended, left out. */
  lemma OneMoreMessage(env: Env, published: seq<RotationEvent>, parentDone: bool, finished: seq<Message>, m: Message)
    requires Follows(env, published, parentDone, finished)
    ensures EventOf(env, m).None? || parentDone ==> Follows(env, published, parentDone, finished + [m])
    ensures EventOf(env, m).Some? ==> Follows(env, published + [EventOf(env, m).value], parentDone, finished + [m])
  {
    EventsAppend(env, finished, m);
    var e := EventOf(env, m);
    if e.Some? {
      SubsequenceBoth(published, EventsOf(env, finished), e.value);
      SubsequenceSkip(published, EventsOf(env, finished), e.value);
    } else {
      assert EventsOf(env, finished) + [] == EventsOf(env, finished);
    }
  }

  lemma TakesFirst(finished: seq<Message>, c: Consumer)
    requires c.Working? && c.done < |c.batch|
    ensures finished + Unfinished(c) == (finished + [c.batch[c.done]]) + Unfinished(Working(c.batch, c.done + 1))
  {
  }

  lemma ConsumerTakesOne(env: Env, s: State, step: Step, finished: seq<Message>)
    requires Progress(env, s, finished) && ConsumerNext(env, s, step).Some?
    requires step.SkipMessage? || step.Publish? || step.DropMessage?
    ensures Progress(env, ConsumerNext(env, s, step).value, finished + [s.consumer.batch[s.consumer.done]])
  {
    var m, t := s.consumer.batch[s.consumer.done], ConsumerNext(env, s, step).value;
    TakesFirst(finished, s.consumer);
    OneMoreMessage(env, s.published, s.parentDone, finished, m);
    assert t.consumer == Working(s.consumer.batch, s.consumer.done + 1);
    assert Follows(env, t.published, t.parentDone, finished + [m]);
  }

  lemma HandOverKeepsEvents(env: Env, s: State, finished: seq<Message>)
    requires Progress(env, s, finished) && Next(env, s, HandOver).Some?
    ensures Progress(env, Next(env, s, HandOver).value, finished)
  {
    var batch := s.producer.batch;
    FlattenAppend(s.handed, batch);
    assert batch[0..] == batch;
    assert finished + [] == finished;
  }

  lemma ProducerLeavesConsumer(s: State, step: Step)
    requires ProducerNext(s, step).Some?
    ensures var t := ProducerNext(s, step).value;
            && t.consumer == s.consumer && t.handed == s.handed
            && t.published == s.published && t.parentDone == s.parentDone
  {
  }

  /** What the consumer does between messages. */
  lemma ConsumerRests(env: Env, s: State, step: Step)
    requires ConsumerNext(env, s, step).Some? && !step.SkipMessage? && !step.Publish? && !step.DropMessage?
    ensures var t := ConsumerNext(env, s, step).value;
            && !t.consumer.Working? && Unfinished(s.consumer) == [] && Unfinished(t.consumer) == []
            && t.handed == s.handed && t.published == s.published && t.parentDone == s.parentDone
  {
  }

  /** A step that takes no message leaves the finished ones as they are. */
  lemma RestKeepsEvents(env: Env, s: State, step: Step, finished: seq<Message>)
    requires Progress(env, s, finished) && Next(env, s, step).Some?
    requires !step.HandOver? && !step.SkipMessage? && !step.Publish? && !step.DropMessage?
    ensures Progress(env, Next(env, s, step).value, finished)
  {
    if IsProducerStep(step) {
      ProducerLeavesConsumer(s, step);
    } else if !step.Stop? && !step.CancelParent? {
      ConsumerRests(env, s, step);
    }
  }

  lemma NextKeepsEvents(env: Env, s: State, step: Step)
    requires EventsHold(env, s) && Next(env, s, step).Some?
    ensures EventsHold(env, Next(env, s, step).value)
  {
    var finished :| Progress(env, s, finished);
    if step.HandOver? {
      HandOverKeepsEvents(env, s, finished);
    } else if step.SkipMessage? || step.Publish? || step.DropMessage? {
      ConsumerTakesOne(env, s, step, finished);
    } else {
      RestKeepsEvents(env, s, step, finished);
    }
  }

  lemma {:induction false} RunsKeepEvents(env: Env, steps: seq<Step>)
    requires Run(env, INITIAL, steps).Some?
    ensures EventsHold(env, Run(env, INITIAL, steps).value)
  {
    if steps == [] {
      assert Progress(env, INITIAL, []);
    } else {
      RunsKeepEvents(env, steps[..|steps| - 1]);
      NextKeepsEvents(env, Run(env, INITIAL, steps[..|steps| - 1]).value, steps[|steps| - 1]);
    }
  }

  /** Published events are the parsed messages of the batches handed over, in order and with some
      left out at most; with a live parent context none is left out once the consumer is not in
      the middle of a batch, in particular when it has finished. */
  lemma PublishedFollowsHanded(env: Env, steps: seq<Step>)
    requires Run(env, INITIAL, steps).Some?
    ensures var s := Run(env, INITIAL, steps).value;
            && IsSubsequence(s.published, EventsOf(env, Flatten(s.handed)))
            && (!s.parentDone && !s.consumer.Working? ==> s.published == EventsOf(env, Flatten(s.handed)))
  {
    RunsKeepEvents(env, steps);
    var s := Run(env, INITIAL, steps).value;
    var finished :| Progress(env, s, finished);
    if s.consumer.Working? {
      MoreEvents(env, s.published, finished, s.consumer.batch[s.consumer.done..]);
    } else {
      assert finished + [] == finished;
    }
  }

  lemma {:induction false} MoreEvents(env: Env, a: seq<RotationEvent>, messages: seq<Message>, more: seq<Message>)
    requires IsSubsequence(a, EventsOf(env, messages))
    ensures IsSubsequence(a, EventsOf(env, messages + more))
  {
    if more == [] {
      assert messages + more == messages;
    } else {
      var init, m := more[..|more| - 1], more[|more| - 1];
      MoreEvents(env, a, messages, init);
      assert messages + more == (messages + init) + [m];
      EventsAppend(env, messages + init, m);
      if EventOf(env, m).Some? {
        SubsequenceSkip(a, EventsOf(env, messages + init), EventOf(env, m).value);
      } else {
        assert EventsOf(env, messages + init) + [] == EventsOf(env, messages + init);
      }
    }
  }

  // Termination of the producer.

  /** How far the producer is from its end once the listener is stopped. */
  function Rank(p: Producer): nat {
    match p
    case Polling => 6
    case Deleting(_, _) => 5
    case Offering(_) => 4
    case BackingOff => 4
    case Looping => 3
    case ClosingMessages => 2
    case ClosingErrors => 1
    case Ended => 0
  }

  function DeletesLeft(p: Producer): nat {
    if p.Deleting? && p.done < |p.batch| then |p.batch| - p.done else 0
  }

  /** Once stopped, the producer can always take a step of its own, whatever the consumer does;
      a poll in progress is assumed to return. */
  lemma StoppedProducerNeverBlocks(s: State) returns (step: Step)
    requires s.stopped && !s.producer.Ended?
    ensures IsProducerStep(step) && ProducerNext(s, step).Some?
  {
    match s.producer
    case Looping => step := CheckContext;
    case Polling => step := PollFails;
    case Deleting(batch, k) => step := if k < |batch| then Delete else FinishDeletes;
    case Offering(_) => step := OfferStopped;
    case BackingOff => step := BackOffStopped;
    case ClosingMessages => step := CloseMessages;
    case ClosingErrors => step := CloseErrors;
  }

  function ProducerSteps(steps: seq<Step>): nat {
    if steps == [] then 0
    else ProducerSteps(steps[..|steps| - 1]) + if IsProducerStep(steps[|steps| - 1]) then 1 else 0
  }

  /** How many polls return a batch in the run, and how many messages they return in all. */
  function Polls(steps: seq<Step>): nat {
    if steps == [] then 0
    else Polls(steps[..|steps| - 1]) + if steps[|steps| - 1].PollReturns? then 1 else 0
  }

  function Polled(steps: seq<Step>): nat {
    if steps == [] then 0
    else
      var last := steps[|steps| - 1];
      Polled(steps[..|steps| - 1]) + if last.PollReturns? then |last.batch| else 0
  }

  function PollPending(p: Producer): nat {
    if p.Polling? then 1 else 0
  }

  /** Bounds the producer steps that are left, but for the deletions of a batch still to come. */
  function StepsLeft(p: Producer): nat {
    Rank(p) + DeletesLeft(p)
  }

  lemma StoppedStep(env: Env, s: State, step: Step)
    requires s.stopped && Next(env, s, step).Some?
    ensures var t := Next(env, s, step).value;
            && t.stopped
            && StepsLeft(t.producer) + (if IsProducerStep(step) then 1 else 0)
               <= StepsLeft(s.producer) + (if step.PollReturns? then |step.batch| else 0)
            && PollPending(t.producer) + (if step.PollReturns? then 1 else 0) <= PollPending(s.producer)
  {
    if ConsumerNext(env, s, step).Some? {
      ConsumerLeavesProducer(env, s, step);
    }
  }

  /** However it is scheduled, a stopped producer takes at most six steps of its own and one for
      each message of the poll that was in progress, if any; it starts no other poll. */
  lemma {:induction false} StoppedProducerIsBounded(env: Env, s: State, steps: seq<Step>)
    requires s.stopped && Run(env, s, steps).Some?
    ensures var t := Run(env, s, steps).value;
            && t.stopped
            && ProducerSteps(steps) + StepsLeft(t.producer) <= StepsLeft(s.producer) + Polled(steps)
            && Polls(steps) + PollPending(t.producer) <= PollPending(s.producer)
  {
    if steps != [] {
      var init := steps[..|steps| - 1];
      StoppedProducerIsBounded(env, s, init);
      StoppedStep(env, Run(env, s, init).value, steps[|steps| - 1]);
    }
  }
}
