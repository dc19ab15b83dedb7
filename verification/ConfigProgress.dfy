/** What reconciliation gets done: each one ends after a few steps of its own, a Config that users
    leave alone comes to have exactly its listeners, and one that they delete is let go. */
module ConfigProgress {
  import opened Api
  import opened Validation
  import opened RouteTable
  import opened ListenerModel
  import opened ListenerIsolation
  import opened ListenerClash
  import opened ListenerHistory
  import opened ConfigLifecycle
  import opened ConfigPaths
  import opened ConfigWrites
  import StaleReads

  // A reconciliation that has read the object.

  /** In every state the version read decides what comes next, and one of the four branches is always
      open: stop the listeners of a deleted object, add the finalizer where it is missing, mark a live
      object that is not marked, or go straight on. */
  lemma BranchesExact(env: Env, s: System, name: NamespacedName, c: Config, call: Step)
    requires InRange(s.manager.server) && PositionOf(s, name) == Read(c)
    requires Empties(env, s.manager, call, name)
    ensures Next(env, s, StopListeners(call)).Some? <==> FINALIZER in c.finalizers && c.deleting
    ensures Next(env, s, AddFinalizer(name, false)).Some? <==> FINALIZER !in c.finalizers
    ensures Next(env, s, MarkProcessed(name, false)).Some? <==>
            FINALIZER in c.finalizers && !c.deleting && !c.processed
    ensures Next(env, s, AlreadyProcessed(name)).Some? <==> FINALIZER in c.finalizers && !c.deleting && c.processed
    ensures name in s.objects && s.objects[name] == c ==>
              && (Next(env, s, AddFinalizer(name, true)).Some? <==> FINALIZER !in c.finalizers)
              && (Next(env, s, MarkProcessed(name, true)).Some? <==>
                  FINALIZER in c.finalizers && !c.deleting && !c.processed)
  {
  }

  /** How many steps the reconciliation still has to take at most. */
  function StepsLeft(p: Position): nat {
    match p
    case Idle => 0
    case Read(_) => 2
    case _ => 1
  }

  /** A reconciliation that is not over always has a step of its own, even if its writes fail. */
  lemma ReconcileIsNeverStuck(env: Env, s: System, name: NamespacedName) returns (event: Event, t: System)
    requires InRange(s.manager.server) && !PositionOf(s, name).Idle?
    ensures Next(env, s, event) == Some(t) && IsStepFor(event, name)
    ensures StepsLeft(PositionOf(t, name)) < StepsLeft(PositionOf(s, name))
  {
    var sources := if PositionOf(s, name).Ready? then PositionOf(s, name).config.sources else [];
    var call := SomeCall(env, s.manager, name, sources, {});
    event :=
      match PositionOf(s, name)
      case Missing => ReleaseMissing(call)
      case Read(c) =>
        if !HasFinalizer(c) then AddFinalizer(name, false)
        else if c.deleting then StopListeners(call)
        else if c.processed then AlreadyProcessed(name) else MarkProcessed(name, false)
      case Stopped(_) => RemoveFinalizer(name, false)
      case Ready(_) => StartListeners(call);
    t := Next(env, s, event).value;
  }

  /** A step of the reconciliation of that Config after its read. */
  predicate IsStepFor(event: Event, name: NamespacedName) {
    match event
    case RemoveFinalizer(n, _) => n == name
    case AddFinalizer(n, _) => n == name
    case MarkProcessed(n, _) => n == name
    case AlreadyProcessed(n) => n == name
    case ReleaseMissing(call) => call.Manage? && call.name == name
    case StopListeners(call) => call.Manage? && call.name == name
    case StartListeners(call) => call.Manage? && call.name == name
    case _ => false
  }

  predicate IsReadOf(event: Event, name: NamespacedName) {
    (event.Fetch? || event.FetchMissing?) && event.name == name
  }

  function StepsFor(events: seq<Event>, name: NamespacedName): nat {
    if events == [] then 0
    else StepsFor(events[..|events| - 1], name) + if IsStepFor(events[|events| - 1], name) then 1 else 0
  }

  function ReadsOf(events: seq<Event>, name: NamespacedName): nat {
    if events == [] then 0
    else ReadsOf(events[..|events| - 1], name) + if IsReadOf(events[|events| - 1], name) then 1 else 0
  }

  lemma StepCounts(env: Env, s: System, event: Event, name: NamespacedName)
    requires InRange(s.manager.server) && Next(env, s, event).Some?
    ensures StepsLeft(PositionOf(Next(env, s, event).value, name)) + (if IsStepFor(event, name) then 1 else 0)
            <= StepsLeft(PositionOf(s, name)) + (if IsReadOf(event, name) then 2 else 0)
  {
  }

  /** However it is interleaved, a read leads to at most two more steps. */
  lemma {:induction false} ReconciliationsEnd(env: Env, events: seq<Event>, name: NamespacedName)
    requires ConfigLifecycle.Run(env, INITIAL, events).Some?
    ensures StepsFor(events, name) + StepsLeft(PositionOf(ConfigLifecycle.Run(env, INITIAL, events).value, name))
            <= 2 * ReadsOf(events, name)
  {
    if events != [] {
      var init := events[..|events| - 1];
      ReconciliationsEnd(env, init, name);
      StepCounts(env, ConfigLifecycle.Run(env, INITIAL, init).value, events[|events| - 1], name);
    }
  }

  // From any state to the listeners of the object as it is.

  /** A read of a version with the finalizer leads to the call for its sources. */
  lemma ReadAndStart(env: Env, s: System, name: NamespacedName, c: Config, working: set<string>)
      returns (p: Path, t: System, call: Step)
    requires At(s, name, c, Idle) && HasFinalizer(c) && !c.deleting && c.version >= RemovedAt(s, name)
    ensures Connects(env, p, s, t) && Own(p)
    ensures call.Manage? && call.name == name && call.sources == c.sources && call.working == working
    ensures ValidStep(env, s.manager, call) && t.manager == Exec(env, s.manager, call)
    ensures t.cache == Some(c.destinations) && PositionOf(t, name).Idle?
    ensures name in t.objects && HasFinalizer(t.objects[name])
  {
    call := SomeCall(env, s.manager, name, c.sources, working);
    var p1, s1 := ReadCurrent(env, s, name, c);
    var p2, s2, d;
    if c.processed {
      p2, s2 := Skip(env, s1, name, c);
      d := c;
    } else {
      p2, s2 := Mark(env, s1, name, c);
      d := c.(version := s1.next, processed := true);
    }
    var p3;
    p3, t := Start(env, s2, name, c, d, call);
    p := Joined(env, p1, p2, s, s1, s2);
    p := Joined(env, p, p3, s, s2, t);
  }

  lemma ReadAndFinalize(env: Env, s: System, name: NamespacedName, c: Config) returns (p: Path, t: System)
    requires At(s, name, c, Idle) && !HasFinalizer(c) && !c.deleting
    ensures Connects(env, p, s, t) && Own(p) && SameManager(s, t) && t.removedAt == s.removedAt
    ensures At(t, name, c.(version := s.next, finalizers := c.finalizers + {FINALIZER}), Idle)
  {
    var p1, s1 := ReadCurrent(env, s, name, c);
    var p2;
    p2, t := Finalize(env, s1, name, c);
    p := Joined(env, p1, p2, s, s1, t);
  }

  lemma Settles(env: Env, s: System, name: NamespacedName, c: Config, working: set<string>)
      returns (p: Path, t: System, call: Step)
    requires At(s, name, c, Idle) && !c.deleting && c.version >= RemovedAt(s, name) && RemovedAt(s, name) <= s.next
    ensures Connects(env, p, s, t) && Own(p)
    ensures call.Manage? && call.name == name && call.sources == c.sources && call.working == working
    ensures ValidStep(env, s.manager, call) && t.manager == Exec(env, s.manager, call)
    ensures t.cache == Some(c.destinations) && PositionOf(t, name).Idle?
    ensures name in t.objects && HasFinalizer(t.objects[name])
  {
    if HasFinalizer(c) {
      p, t, call := ReadAndStart(env, s, name, c, working);
    } else {
      var p1, s1 := ReadAndFinalize(env, s, name, c);
      var p2;
      p2, t, call := ReadAndStart(env, s1, name, c.(version := s.next, finalizers := c.finalizers + {FINALIZER}), working);
      p := Joined(env, p1, p2, s, s1, t);
    }
  }

  lemma {:induction false} RecentConcat(env: Env, a: seq<Event>, s: System, b: seq<Event>)
    requires ConfigLifecycle.Run(env, INITIAL, a) == Some(s)
    requires AllReadsRecent(env, INITIAL, a) && AllReadsRecent(env, s, b)
    ensures AllReadsRecent(env, INITIAL, a + b)
  {
    if b == [] {
      assert a + b == a;
    } else {
      var init := b[..|b| - 1];
      assert (a + b)[..|a + b| - 1] == a + init;
      RecentConcat(env, a, s, init);
      StaleReads.RunsConcat(env, INITIAL, a, s, init);
    }
  }

  /** The run goes on with those steps of the controller to that state. */
  ghost predicate GoesOn(env: Env, events: seq<Event>, more: seq<Event>, t: System) {
    && ConfigLifecycle.Run(env, INITIAL, events + more) == Some(t)
    && AllReadsRecent(env, INITIAL, events + more)
    && forall i :: 0 <= i < |more| ==> ByController(more[i])
  }

  lemma PathGoesOn(env: Env, events: seq<Event>, s: System, p: Path, t: System)
    requires ConfigLifecycle.Run(env, INITIAL, events) == Some(s) && AllReadsRecent(env, INITIAL, events)
    requires Connects(env, p, s, t) && Own(p)
    ensures GoesOn(env, events, p.events, t)
  {
    PathRuns(env, p, s, t);
    StaleReads.RunsConcat(env, INITIAL, events, s, p.events);
    RecentConcat(env, events, s, p.events);
  }

  /** After any run, if users leave an object with an accepted specification alone and its
      reconciliation is over, the controller can go on by itself to a state in which the event handler
      holds its destinations, it carries the finalizer, is otherwise as its users left it, and has
      exactly the wanted listeners that were live or can be started. */
  lemma Converges(env: Env, events: seq<Event>, name: NamespacedName, working: set<string>)
      returns (more: seq<Event>, t: System)
    requires ConfigLifecycle.Run(env, INITIAL, events).Some? && AllReadsRecent(env, INITIAL, events)
    requires var s := ConfigLifecycle.Run(env, INITIAL, events).value;
             && PositionOf(s, name).Idle? && name in s.objects && !s.objects[name].deleting
             && DistinctSuffixes(s.objects[name].sources)
    ensures GoesOn(env, events, more, t)
    ensures var s := ConfigLifecycle.Run(env, INITIAL, events).value;
            var c := s.objects[name];
            && name in t.objects && FINALIZER in t.objects[name].finalizers && SameForUsers(c, t.objects[name])
            && t.cache == Some(c.destinations) && PositionOf(t, name).Idle?
            && forall key :: key in Live(t.manager, name) <==>
                 var desired := Desired(env, c.sources);
                 key in desired && (key in Live(s.manager, name) || Startable(env, desired[key], key, working))
  {
    var s := ConfigLifecycle.Run(env, INITIAL, events).value;
    var c := s.objects[name];
    RunsKeepInvariant(env, events);
    assert IsCurrentVersion(s, name, c);
    var p, call;
    p, t, call := Settles(env, s, name, c, working);
    more := p.events;
    PathGoesOn(env, events, s, p, t);
    ControllerRespectsUsers(env, events, more, name);
    ManageListenersExact(env, s.manager, call);
  }

  /** After any run, an object that is being deleted, carries the finalizer and whose reconciliation is
      over can be let go by the controller itself: it then has no live listener, and is gone if and
      only if nobody else holds it by a finalizer. */
  lemma LetsGo(env: Env, events: seq<Event>, name: NamespacedName) returns (more: seq<Event>, t: System)
    requires ConfigLifecycle.Run(env, INITIAL, events).Some? && AllReadsRecent(env, INITIAL, events)
    requires var s := ConfigLifecycle.Run(env, INITIAL, events).value;
             && PositionOf(s, name).Idle? && name in s.objects
             && s.objects[name].deleting && FINALIZER in s.objects[name].finalizers
    ensures GoesOn(env, events, more, t)
    ensures Live(t.manager, name) == map[] && PositionOf(t, name).Idle?
    ensures var c := ConfigLifecycle.Run(env, INITIAL, events).value.objects[name];
            && (name !in t.objects <==> c.finalizers == {FINALIZER})
            && (name in t.objects ==> SameForUsers(c, t.objects[name]) && FINALIZER !in t.objects[name].finalizers)
  {
    var s := ConfigLifecycle.Run(env, INITIAL, events).value;
    var c := s.objects[name];
    RunsKeepInvariant(env, events);
    assert IsCurrentVersion(s, name, c);
    var p1, s1 := ReadCurrent(env, s, name, c);
    var p2;
    p2, t := StopAndRelease(env, s1, name, c);
    var p := Joined(env, p1, p2, s, s1, t);
    more := p.events;
    PathGoesOn(env, events, s, p, t);
    var call :| Empties(env, s1.manager, call, name) && t.manager == Exec(env, s1.manager, call);
    EmptySpecStopsAll(env, s1.manager, call);
  }
}
