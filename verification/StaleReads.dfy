/** Why finalizer safety needs recent reads: exactly which reads break it, and a run that does. */
module StaleReads {
  import opened Api
  import opened Validation
  import opened RouteTable
  import opened ListenerModel
  import opened ListenerIsolation
  import opened ListenerClash
  import opened ListenerHistory
  import opened ConfigLifecycle
  import opened ConfigPaths

  lemma StartsKey(env: Env, s: State, call: Step, key: string)
    requires Sound(env, s) && call.Manage? && ValidStep(env, s, call) && DistinctSuffixes(call.sources)
    requires var desired := Desired(env, call.sources);
             key in desired && Startable(env, desired[key], key, call.working)
    ensures key in Live(Exec(env, s, call), call.name)
  {
    ManageListenersExact(env, s, call);
  }

  /** What the controller does at once when it reads that version. */
  function ReadAndStart(config: Config, call: Step): seq<Event>
    requires call.Manage?
  {
    [Fetch(call.name, config), AlreadyProcessed(call.name), StartListeners(call)]
  }

  /** In any state, a read that leads straight to starting listeners ends safely if and only if some
      version that carries the finalizer is not older than the controller's last removal of it, and
      so it does for every version read that is not older itself. */
  lemma OldReadBreaksSafety(env: Env, s: System, config: Config, call: Step, key: string)
    requires Invariant(env, s) && call.Manage?
    requires PositionOf(s, call.name).Idle? && (call.name, config) in s.history
    requires StartsAtOnce(config) && DistinctSuffixes(config.sources)
    requires call.sources == config.sources && ValidStep(env, s.manager, call)
    requires var desired := Desired(env, config.sources);
             key in desired && Startable(env, desired[key], key, call.working)
    ensures var t := ConfigLifecycle.Run(env, s, ReadAndStart(config, call));
            && t.Some?
            && (Safe(t.value) <==> exists c :: IsCurrentVersion(s, call.name, c) && HasFinalizer(c))
            && (config.version >= RemovedAt(s, call.name) ==> Safe(t.value))
  {
    var t := StartAfterRead(env, s, config, call);
    StartsKey(env, s.manager, call, key);
    CallLeavesOthers(env, s.manager, call);
    SafeIffFinalizer(env, s, t, call, key);
    FinalizerByVersions(env, s, call.name);
    assert config.version >= RemovedAt(s, call.name) ==> IsCurrentVersion(s, call.name, config);
  }

  lemma StartAfterRead(env: Env, s: System, config: Config, call: Step) returns (t: System)
    requires InRange(s.manager.server) && call.Manage?
    requires PositionOf(s, call.name).Idle? && (call.name, config) in s.history && StartsAtOnce(config)
    requires call.sources == config.sources && ValidStep(env, s.manager, call)
    ensures ConfigLifecycle.Run(env, s, ReadAndStart(config, call)) == Some(t)
    ensures t.objects == s.objects && t.manager == Exec(env, s.manager, call)
  {
    var events := ReadAndStart(config, call);
    var s1 := MoveTo(s, call.name, Read(config));
    var s2 := MoveTo(s1, call.name, Ready(config));
    t := HandedOver(env, s2, call);
    ReadyAfterRead(env, s, call.name, config);
    StartWhenReady(env, s2, call);
    ThreeSteps(env, s, s1, s2, t, events);
  }

  lemma ReadyAfterRead(env: Env, s: System, name: NamespacedName, config: Config)
    requires InRange(s.manager.server)
    requires PositionOf(s, name).Idle? && (name, config) in s.history && StartsAtOnce(config)
    ensures var s1 := MoveTo(s, name, Read(config));
            && Next(env, s, Fetch(name, config)) == Some(s1)
            && Next(env, s1, AlreadyProcessed(name)) == Some(MoveTo(s1, name, Ready(config)))
  {
  }

  lemma StartWhenReady(env: Env, s: System, call: Step)
    requires InRange(s.manager.server) && call.Manage? && ValidStep(env, s.manager, call)
    requires PositionOf(s, call.name).Ready? && PositionOf(s, call.name).config.sources == call.sources
    ensures Next(env, s, StartListeners(call)) == Some(HandedOver(env, s, call))
  {
  }

  lemma ThreeSteps(env: Env, s: System, s1: System, s2: System, t: System, events: seq<Event>)
    requires |events| == 3 && InRange(s.manager.server) && InRange(s1.manager.server) && InRange(s2.manager.server)
    requires Next(env, s, events[0]) == Some(s1)
    requires Next(env, s1, events[1]) == Some(s2)
    requires Next(env, s2, events[2]) == Some(t)
    ensures ConfigLifecycle.Run(env, s, events) == Some(t)
  {
    assert events[..2][..1] == events[..1] && events[..1][..0] == [];
    assert ConfigLifecycle.Run(env, s, []) == Some(s);
    assert ConfigLifecycle.Run(env, s, events[..1]) == Some(s1);
    assert ConfigLifecycle.Run(env, s, events[..2]) == Some(s2);
  }

  lemma SafeIffFinalizer(env: Env, s: System, t: System, call: Step, key: string)
    requires Safe(s) && InRange(s.manager.server) && call.Manage?
    requires t.objects == s.objects
    requires key in Live(t.manager, call.name)
    requires forall n :: n != call.name ==> Live(t.manager, n) == Live(s.manager, n)
    ensures Safe(t) <==> call.name in s.objects && HasFinalizer(s.objects[call.name])
  {
  }

  // A run from the beginning that ends in such a read.

  lemma {:induction false} RunsConcat(env: Env, s: System, a: seq<Event>, t: System, b: seq<Event>)
    requires InRange(s.manager.server) && ConfigLifecycle.Run(env, s, a) == Some(t)
    ensures ConfigLifecycle.Run(env, s, a + b) == ConfigLifecycle.Run(env, t, b)
  {
    if b == [] {
      assert a + b == a;
    } else {
      assert (a + b)[..|a + b| - 1] == a + b[..|b| - 1];
      RunsConcat(env, s, a, t, b[..|b| - 1]);
    }
  }

  lemma LivedRun(env: Env, name: NamespacedName, sources: seq<NotificationSource>, destinations: string,
                 working: set<string>)
      returns (events: seq<Event>, s: System)
    ensures ConfigLifecycle.Run(env, INITIAL, events) == Some(s) && AllReadsRecent(env, INITIAL, events)
    ensures name !in s.objects && PositionOf(s, name).Idle?
    ensures (name, Settled(2, sources, destinations)) in s.history && s.cache == Some(destinations)
  {
    var p;
    p, s := WholeLife(env, INITIAL, name, sources, destinations, working);
    PathRuns(env, p, INITIAL, s);
    events := p.events;
  }

  /** Once the Config is gone, every version with the finalizer is too old. */
  lemma StaleRead(env: Env, s: System, config: Config, call: Step, key: string) returns (t: System)
    requires Invariant(env, s) && Calls(call, config.sources) && call.name !in s.objects
    requires PositionOf(s, call.name).Idle? && (call.name, config) in s.history
    requires StartsAtOnce(config) && DistinctSuffixes(config.sources) && ValidStep(env, s.manager, call)
    requires var desired := Desired(env, config.sources);
             key in desired && Startable(env, desired[key], key, call.working)
    ensures ConfigLifecycle.Run(env, s, ReadAndStart(config, call)) == Some(t)
    ensures call.name !in t.objects && !Safe(t)
  {
    t := StartAfterRead(env, s, config, call);
    OldReadBreaksSafety(env, s, config, call, key);
    FinalizerByVersions(env, s, call.name);
  }

  /** Every Config with a source that can be started has a run from the beginning, with recent reads
      but for one, after which it is gone and has live listeners. */
  lemma StaleReadRun(env: Env, name: NamespacedName, sources: seq<NotificationSource>, destinations: string,
                     working: set<string>, key: string)
      returns (events: seq<Event>, config: Config, call: Step)
    requires DistinctSuffixes(sources)
    requires key in Desired(env, sources) && Startable(env, Desired(env, sources)[key], key, working)
    ensures ConfigLifecycle.Run(env, INITIAL, events).Some? && AllReadsRecent(env, INITIAL, events)
    ensures call.Manage? && call.name == name && config.sources == sources
    ensures var t := ConfigLifecycle.Run(env, INITIAL, events + ReadAndStart(config, call));
            t.Some? && name !in t.value.objects && !Safe(t.value)
  {
    var s;
    events, s := LivedRun(env, name, sources, destinations, working);
    RunsKeepInvariant(env, events);
    config := Settled(2, sources, destinations);
    call := SomeCall(env, s.manager, name, sources, working);
    var t := StaleRead(env, s, config, call, key);
    RunsConcat(env, INITIAL, events, s, ReadAndStart(config, call));
  }
}
