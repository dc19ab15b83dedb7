/** The whole path from Config objects to webhook requests: what a run of the controller, the
    listener manager and the shared server guarantee together. */
module ControllerRuns {
  import opened Api
  import opened RoutePaths
  import opened RouteTable
  import opened ListenerModel
  import opened ListenerIsolation
  import opened ListenerBijection
  import opened ListenerClash
  import opened ConfigLifecycle
  import opened WebhookDispatch

  /** A specification that cannot clash, under a well-formed name. */
  predicate CleanSpec(env: Env, name: NamespacedName, sources: seq<NotificationSource>) {
    WellNamed(name) && NoHashSuffix(env, sources)
  }

  /** Users write such specifications only, and the controller is asked about such names only. */
  predicate CleanEvent(env: Env, event: Event) {
    match event
    case UserCreate(name, config) => CleanSpec(env, name, config.sources)
    case UserUpdate(name, config) => CleanSpec(env, name, config.sources)
    case FetchMissing(name) => WellNamed(name)
    case _ => true
  }

  ghost predicate CleanEvents(env: Env, events: seq<Event>) {
    forall i :: 0 <= i < |events| ==> CleanEvent(env, events[i])
  }

  predicate CleanPosition(env: Env, name: NamespacedName, p: Position) {
    match p
    case Idle => true
    case Missing => WellNamed(name)
    case Read(c) => CleanSpec(env, name, c.sources)
    case Stopped(c) => CleanSpec(env, name, c.sources)
    case Ready(c) => CleanSpec(env, name, c.sources)
  }

  ghost predicate AllClean(env: Env, s: System) {
    && (forall name, c :: (name, c) in s.history ==> CleanSpec(env, name, c.sources))
    && (forall name :: name in s.objects ==> CleanSpec(env, name, s.objects[name].sources))
    && (forall name :: CleanPosition(env, name, PositionOf(s, name)))
  }

  predicate CleanCall(env: Env, call: Step) {
    call.Manage? ==> CleanSpec(env, call.name, call.sources)
  }

  lemma StoreClean(env: Env, s: System, name: NamespacedName, c: Config)
    requires AllClean(env, s) && CleanSpec(env, name, c.sources)
    ensures AllClean(env, Store(s, name, c))
  {
    var t := Store(s, name, c);
    forall n ensures CleanPosition(env, n, PositionOf(t, n)) {
      assert PositionOf(t, n) == PositionOf(s, n);
    }
  }

  lemma MoveClean(env: Env, s: System, t: System, name: NamespacedName, p: Position)
    requires AllClean(env, s) && CleanPosition(env, name, p)
    requires t.history == s.history && t.objects == s.objects && t.positions == s.positions[name := p]
    ensures AllClean(env, t)
  {
    forall n ensures CleanPosition(env, n, PositionOf(t, n)) {
      assert n != name ==> PositionOf(t, n) == PositionOf(s, n);
    }
  }

  lemma WriteClean(env: Env, s: System, event: Event)
    requires AllClean(env, s) && WriteNext(s, event).Some?
    ensures AllClean(env, WriteNext(s, event).value)
  {
    var p, t := PositionOf(s, event.name), WriteNext(s, event).value;
    assert CleanPosition(env, event.name, p);
    if event.AlreadyProcessed? {
      MoveClean(env, s, t, event.name, Ready(p.config));
    } else if !event.ok {
      MoveClean(env, s, t, event.name, Idle);
    } else {
      match event
      case RemoveFinalizer(name, _) =>
        var c := p.config.(finalizers := p.config.finalizers - {FINALIZER});
        StoreClean(env, s, name, c);
        MoveClean(env, Store(s, name, c), t, name, Idle);
      case AddFinalizer(name, _) =>
        var c := p.config.(finalizers := p.config.finalizers + {FINALIZER});
        StoreClean(env, s, name, c);
        MoveClean(env, Store(s, name, c), t, name, Idle);
      case MarkProcessed(name, _) =>
        var c := p.config.(processed := true);
        StoreClean(env, s, name, c);
        MoveClean(env, Store(s, name, c), t, name, Ready(p.config));
    }
  }

  predicate IsCall(event: Event) {
    event.ReleaseMissing? || event.StopListeners? || event.StartListeners? || event.StopEverything?
  }

  lemma CallClean(env: Env, s: System, event: Event)
    requires InRange(s.manager.server) && AllClean(env, s) && CallNext(env, s, event).Some?
    ensures AllClean(env, CallNext(env, s, event).value)
    ensures IsCall(event) ==> CleanCall(env, event.call)
  {
    var t := CallNext(env, s, event).value;
    if event.StopEverything? || event.Restart? {
      assert forall n :: PositionOf(t, n) == PositionOf(s, n) || PositionOf(t, n) == Idle;
    } else {
      var name := event.call.name;
      assert CleanPosition(env, name, PositionOf(s, name));
      MoveClean(env, s, t, name, PositionOf(t, name));
    }
  }

  lemma NextClean(env: Env, s: System, event: Event)
    requires InRange(s.manager.server) && AllClean(env, s) && CleanEvent(env, event)
    requires Next(env, s, event).Some?
    ensures AllClean(env, Next(env, s, event).value)
    ensures IsCall(event) ==> CleanCall(env, event.call)
  {
    match event
    case UserCreate(name, config) => StoreClean(env, s, name, config);
    case UserUpdate(name, config) => StoreClean(env, s, name, config);
    case UserDelete(name) => StoreClean(env, s, name, s.objects[name].(deleting := true));
    case FetchMissing(name) => MoveClean(env, s, Next(env, s, event).value, name, Missing);
    case Fetch(name, config) => MoveClean(env, s, Next(env, s, event).value, name, Read(config));
    case _ =>
      if WriteNext(s, event).Some? {
        WriteClean(env, s, event);
      } else {
        CallClean(env, s, event);
      }
  }

  /** If users avoid the clash, the listener manager of a controller run is in a state that a run
      of calls without a clash reaches. */
  lemma {:induction false} ManagerNeverClashes(env: Env, events: seq<Event>) returns (calls: seq<Step>)
    requires ConfigLifecycle.Run(env, INITIAL, events).Some? && CleanEvents(env, events)
    ensures AllClean(env, ConfigLifecycle.Run(env, INITIAL, events).value)
    ensures ValidRun(env, EMPTY_STATE, calls) && WellNamedSteps(calls) && ClashFree(env, calls)
    ensures ListenerModel.Run(env, EMPTY_STATE, calls) == ConfigLifecycle.Run(env, INITIAL, events).value.manager
  {
    if events == [] {
      calls := [];
    } else {
      var init, event := events[..|events| - 1], events[|events| - 1];
      calls := ManagerNeverClashes(env, init);
      var s := ConfigLifecycle.Run(env, INITIAL, init).value;
      NextClean(env, s, event);
      ManagerStep(env, s, event);
      if event.Restart? {
        calls := [];
      } else if IsCall(event) {
        assert (calls + [event.call])[..|calls|] == calls;
        calls := calls + [event.call];
      }
    }
  }

  /** In every run of the controller, whatever users, failures and map orders do, as long as no
      specification clashes and reads are recent: a handled webhook request belongs to exactly
      one source, is handled with its configuration, and its Config exists with the finalizer. */
  lemma HandledRequestHasLiveConfig(env: Env, events: seq<Event>, path: string, rk: string, config: WebhookConfig)
      returns (name: NamespacedName, key: string)
    requires Injective(env.hash) && CleanEvents(env, events)
    requires ConfigLifecycle.Run(env, INITIAL, events).Some? && AllReadsRecent(env, INITIAL, events)
    requires ServeHTTP(ConfigLifecycle.Run(env, INITIAL, events).value.manager.server, "POST", path) == Handled(rk, config)
    ensures path == ROUTE_PREFIX + rk
    ensures var s := ConfigLifecycle.Run(env, INITIAL, events).value;
            && Owns(s.manager, name, key, rk)
            && s.manager.listeners[name][key].config == config
            && (forall n, k :: Owns(s.manager, n, k, rk) ==> n == name && k == key)
            && name in s.objects && HasFinalizer(s.objects[name])
  {
    var s := ConfigLifecycle.Run(env, INITIAL, events).value;
    var calls := ManagerNeverClashes(env, events);
    RunsStayBijective(env, calls);
    HandledReachesOneSource(s.manager, path, rk, config);
    name, key :| Owns(s.manager, name, key, rk);
    FinalizerSafety(env, events, name);
  }
}
