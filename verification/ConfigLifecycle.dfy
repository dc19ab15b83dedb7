/** Reconciliation of Config objects: the finalizer protocol in single steps, interleaved with
    users, an API server that keeps objects until their finalizers are gone, failing writes,
    reads from a cache that may lag behind, and restarts of the controller. */
module ConfigLifecycle {
  import opened Api
  import opened Validation
  import opened RouteTable
  import opened ListenerModel
  import opened ListenerIsolation
  import opened ListenerClash
  import opened ListenerHistory

  const FINALIZER := "reloader.external-secrets.io/finalizer"

  /** `version` grows with every write; `processed` says that the annotation is present;
      `destinations` is the text of the destinations to watch, kept opaque. */
  datatype Config = Config(
    version: nat,
    sources: seq<NotificationSource>,
    finalizers: set<string>,
    deleting: bool,
    processed: bool,
    destinations: string)

  predicate HasFinalizer(c: Config) {
    FINALIZER in c.finalizers
  }

  /** Where the reconciliation of one Config stands. */
  datatype Position =
    | Idle
    | Missing
    | Read(config: Config)
    | Stopped(config: Config)
    | Ready(config: Config)

  /** `cache` holds the destinations that the event handler was last given; `history` every version
      ever written; `removedAt` the version at which the controller last took its finalizer off a
      Config. */
  datatype System = System(
    objects: map<NamespacedName, Config>,
    positions: map<NamespacedName, Position>,
    manager: State,
    cache: Option<string>,
    next: nat,
    history: set<(NamespacedName, Config)>,
    removedAt: map<NamespacedName, nat>)

  const INITIAL := System(map[], map[], EMPTY_STATE, None, 0, {}, map[])

  function PositionOf(s: System, name: NamespacedName): Position {
    if name in s.positions then s.positions[name] else Idle
  }

  function RemovedAt(s: System, name: NamespacedName): nat {
    if name in s.removedAt then s.removedAt[name] else 0
  }

  function MoveTo(s: System, name: NamespacedName, p: Position): System {
    s.(positions := s.positions[name := p])
  }

  /** The API server stores a new version; a deleted object without finalizers goes away. */
  function Store(s: System, name: NamespacedName, c: Config): System {
    var stored := c.(version := s.next);
    s.(objects := if c.deleting && c.finalizers == {} then s.objects - {name} else s.objects[name := stored],
       history := s.history + {(name, stored)},
       next := s.next + 1)
  }

  /** A write is accepted only on top of the version it was read at, and may fail anyway. */
  predicate CanWrite(s: System, name: NamespacedName, c: Config) {
    name in s.objects && s.objects[name].version == c.version
  }

  datatype Event =
    | UserCreate(name: NamespacedName, config: Config)
    | UserUpdate(name: NamespacedName, config: Config)
    | UserDelete(name: NamespacedName)
    | FetchMissing(name: NamespacedName)
    | Fetch(name: NamespacedName, config: Config)
    | ReleaseMissing(call: Step)
    | StopListeners(call: Step)
    | RemoveFinalizer(name: NamespacedName, ok: bool)
    | AddFinalizer(name: NamespacedName, ok: bool)
    | MarkProcessed(name: NamespacedName, ok: bool)
    | AlreadyProcessed(name: NamespacedName)
    | StartListeners(call: Step)
    | StopEverything(call: Step)
    | Restart

  /** Users may do anything to an object but take the controller's finalizer off it. */
  function UserNext(s: System, event: Event): Option<System> {
    match event
    case UserCreate(name, config) =>
      if name !in s.objects && !config.deleting then Some(Store(s, name, config)) else None
    case UserUpdate(name, config) =>
      if name in s.objects && config.deleting == s.objects[name].deleting
         && (HasFinalizer(s.objects[name]) ==> HasFinalizer(config))
      then Some(Store(s, name, config)) else None
    case UserDelete(name) =>
      if name in s.objects then Some(Store(s, name, s.objects[name].(deleting := true))) else None
    case _ => None
  }

  /** A read finds nothing or any version ever written; ReadsRecent below limits how old it may be. */
  function ReadNext(s: System, event: Event): Option<System> {
    match event
    case FetchMissing(name) =>
      if PositionOf(s, name).Idle? then Some(MoveTo(s, name, Missing)) else None
    case Fetch(name, config) =>
      if PositionOf(s, name).Idle? && (name, config) in s.history then Some(MoveTo(s, name, Read(config))) else None
    case _ => None
  }

  /** The controller takes its finalizer off the version it holds. */
  function Removed(s: System, name: NamespacedName, c: Config): System {
    var t := Store(s, name, c.(finalizers := c.finalizers - {FINALIZER}));
    MoveTo(t, name, Idle).(removedAt := s.removedAt[name := s.next])
  }

  function WriteNext(s: System, event: Event): Option<System> {
    match event
    case RemoveFinalizer(name, ok) =>
      var p := PositionOf(s, name);
      if !p.Stopped? || (ok && !CanWrite(s, name, p.config)) then None
      else if !ok then Some(MoveTo(s, name, Idle))
      else Some(Removed(s, name, p.config))
    case AddFinalizer(name, ok) =>
      var p := PositionOf(s, name);
      if !p.Read? || HasFinalizer(p.config) || (ok && !CanWrite(s, name, p.config)) then None
      else if !ok then Some(MoveTo(s, name, Idle))
      else Some(MoveTo(Store(s, name, p.config.(finalizers := p.config.finalizers + {FINALIZER})), name, Idle))
    case MarkProcessed(name, ok) =>
      var p := PositionOf(s, name);
      if !IsLive(p) || p.config.processed || (ok && !CanWrite(s, name, p.config)) then None
      else if !ok then Some(MoveTo(s, name, Idle))
      else Some(MoveTo(Store(s, name, p.config.(processed := true)), name, Ready(p.config)))
    case AlreadyProcessed(name) =>
      var p := PositionOf(s, name);
      if IsLive(p) && p.config.processed then Some(MoveTo(s, name, Ready(p.config))) else None
    case _ => None
  }

  /** The object as read has the finalizer and is not being deleted. */
  predicate IsLive(p: Position) {
    p.Read? && HasFinalizer(p.config) && !p.config.deleting
  }

  predicate Calls(call: Step, sources: seq<NotificationSource>) {
    call.Manage? && call.sources == sources
  }

  /** The controller hands the destinations of the version it holds to the event handler and the
      sources to the listener manager. */
  function HandedOver(env: Env, s: System, call: Step): (r: System)
    requires InRange(s.manager.server) && call.Manage? && PositionOf(s, call.name).Ready?
    ensures InRange(r.manager.server)
  {
    var destinations := PositionOf(s, call.name).config.destinations;
    MoveTo(s, call.name, Idle).(manager := Exec(env, s.manager, call), cache := Some(destinations))
  }

  /** The controller calls into the listener manager. */
  function CallNext(env: Env, s: System, event: Event): (r: Option<System>)
    requires InRange(s.manager.server)
    ensures r.Some? ==> InRange(r.value.manager.server)
  {
    match event
    case ReleaseMissing(call) =>
      if Calls(call, []) && PositionOf(s, call.name).Missing? && ValidStep(env, s.manager, call) then
        Some(MoveTo(s, call.name, Idle).(manager := Exec(env, s.manager, call)))
      else None
    case StopListeners(call) =>
      if Calls(call, []) && ValidStep(env, s.manager, call)
         && (var p := PositionOf(s, call.name); p.Read? && p.config.deleting && HasFinalizer(p.config))
      then
        Some(MoveTo(s, call.name, Stopped(PositionOf(s, call.name).config)).(manager := Exec(env, s.manager, call)))
      else None
    case StartListeners(call) =>
      if call.Manage? && PositionOf(s, call.name).Ready? && ValidStep(env, s.manager, call)
         && Calls(call, PositionOf(s, call.name).config.sources)
      then Some(HandedOver(env, s, call))
      else None
    case StopEverything(call) =>
      if call.StopAll? && ValidStep(env, s.manager, call) then Some(s.(manager := Exec(env, s.manager, call))) else None
    case Restart => Some(s.(positions := map[], manager := EMPTY_STATE, cache := None))
    case _ => None
  }

  function Next(env: Env, s: System, event: Event): (r: Option<System>)
    requires InRange(s.manager.server)
    ensures r.Some? ==> InRange(r.value.manager.server)
  {
    match event
    case UserCreate(_, _) => UserNext(s, event)
    case UserUpdate(_, _) => UserNext(s, event)
    case UserDelete(_) => UserNext(s, event)
    case FetchMissing(_) => ReadNext(s, event)
    case Fetch(_, _) => ReadNext(s, event)
    case RemoveFinalizer(_, _) => WriteNext(s, event)
    case AddFinalizer(_, _) => WriteNext(s, event)
    case MarkProcessed(_, _) => WriteNext(s, event)
    case AlreadyProcessed(_) => WriteNext(s, event)
    case _ => CallNext(env, s, event)
  }

  function Run(env: Env, s: System, events: seq<Event>): (r: Option<System>)
    requires InRange(s.manager.server)
    ensures r.Some? ==> InRange(r.value.manager.server)
  {
    if events == [] then Some(s)
    else
      var before := Run(env, s, events[..|events| - 1]);
      if before.None? then None else Next(env, before.value, events[|events| - 1])
  }

  // Safety.

  /** A Config with live listeners exists and carries the finalizer. */
  ghost predicate Safe(s: System) {
    forall name :: Live(s.manager, name) != map[] ==> name in s.objects && HasFinalizer(s.objects[name])
  }

  /** The version leads the controller straight to starting listeners: any other makes it stop them
      or write first, and a write on top of an old version fails. */
  predicate StartsAtOnce(c: Config) {
    HasFinalizer(c) && !c.deleting && c.processed
  }

  /** Where a read leads straight to starting listeners, the cache does not go back behind the
      controller's own last removal of the finalizer. */
  predicate ReadsRecent(s: System, event: Event) {
    event.Fetch? && StartsAtOnce(event.config) ==> event.config.version >= RemovedAt(s, event.name)
  }

  ghost predicate AllReadsRecent(env: Env, s: System, events: seq<Event>)
    requires InRange(s.manager.server)
  {
    events == [] ||
    (var init := events[..|events| - 1];
     && AllReadsRecent(env, s, init)
     && (var t := Run(env, s, init); t.Some? ==> ReadsRecent(t.value, events[|events| - 1])))
  }

  /** A version that carries the finalizer and was not written before its last removal shows
      that the object is still there and still has it. */
  ghost predicate Anchored(s: System, name: NamespacedName, c: Config) {
    HasFinalizer(c) && c.version >= RemovedAt(s, name) ==> name in s.objects && HasFinalizer(s.objects[name])
  }

  ghost predicate HistoryAnchored(s: System) {
    && (forall name, c :: (name, c) in s.history ==> Anchored(s, name, c) && c.version < s.next)
    && (forall name :: name in s.removedAt ==> s.removedAt[name] < s.next)
    && (forall name :: name in s.objects ==> IsCurrentVersion(s, name, s.objects[name]))
    && VersionsUnique(s.history)
  }

  /** The version was written, and not before the last removal of the finalizer. */
  predicate IsCurrentVersion(s: System, name: NamespacedName, c: Config) {
    (name, c) in s.history && c.version >= RemovedAt(s, name)
  }

  ghost predicate VersionsUnique(history: set<(NamespacedName, Config)>) {
    forall name, c, d :: (name, c) in history && (name, d) in history && c.version == d.version ==> c == d
  }

  /** What a reconciliation in progress can rely on. */
  predicate PositionHolds(s: System, name: NamespacedName) {
    match PositionOf(s, name)
    case Idle => true
    case Missing => true
    case Read(c) =>
      && (name, c) in s.history
      && (StartsAtOnce(c) ==> name in s.objects && HasFinalizer(s.objects[name]))
    case Stopped(c) => Live(s.manager, name) == map[]
    case Ready(c) => (name, c) in s.history && name in s.objects && HasFinalizer(s.objects[name])
  }

  ghost predicate Invariant(env: Env, s: System) {
    && Sound(env, s.manager)
    && Safe(s)
    && HistoryAnchored(s)
    && forall name :: PositionHolds(s, name)
  }

  /** The API server holds the same in both. */
  predicate SameRecords(s: System, t: System) {
    t.objects == s.objects && t.history == s.history && t.next == s.next && t.removedAt == s.removedAt
  }

  lemma RecordsStayAnchored(s: System, t: System)
    requires HistoryAnchored(s) && SameRecords(s, t)
    ensures HistoryAnchored(t)
  {
    forall n, o | (n, o) in t.history ensures Anchored(t, n, o) && o.version < t.next {
      assert Anchored(s, n, o);
    }
    forall n | n in t.objects ensures IsCurrentVersion(t, n, t.objects[n]) {
      assert IsCurrentVersion(s, n, s.objects[n]);
    }
  }

  /** Whatever is stored, the new version is the newest; every object stays in the history. */
  lemma StoreKeepsVersions(s: System, name: NamespacedName, c: Config)
    requires HistoryAnchored(s)
    ensures var t := Store(s, name, c);
            && VersionsUnique(t.history)
            && (forall n :: n in t.objects ==> IsCurrentVersion(t, n, t.objects[n]))
  {
  }

  lemma StoreKeepsHistory(s: System, name: NamespacedName, c: Config)
    requires HistoryAnchored(s)
    requires name in s.objects && HasFinalizer(s.objects[name]) ==> HasFinalizer(c)
    ensures HistoryAnchored(Store(s, name, c))
  {
    var t := Store(s, name, c);
    StoreKeepsVersions(s, name, c);
    forall n, o | (n, o) in t.history ensures Anchored(t, n, o) && o.version < t.next {
      if (n, o) in s.history {
        assert Anchored(s, n, o);
      }
    }
  }

  lemma StoreKeeps(env: Env, s: System, name: NamespacedName, c: Config)
    requires Invariant(env, s)
    requires name in s.objects && HasFinalizer(s.objects[name]) ==> HasFinalizer(c)
    ensures Invariant(env, Store(s, name, c))
  {
    var t := Store(s, name, c);
    StoreKeepsHistory(s, name, c);
    assert forall n :: n in s.objects && HasFinalizer(s.objects[n]) ==> n in t.objects && HasFinalizer(t.objects[n]);
    forall n ensures PositionHolds(t, n) {
      assert PositionHolds(s, n);
    }
  }

  lemma MoveKeeps(env: Env, s: System, name: NamespacedName, p: Position)
    requires Invariant(env, s)
    requires PositionHolds(MoveTo(s, name, p), name)
    ensures Invariant(env, MoveTo(s, name, p))
  {
    var t := MoveTo(s, name, p);
    RecordsStayAnchored(s, t);
    forall n ensures PositionHolds(t, n) {
      assert PositionHolds(s, n);
    }
  }

  lemma UserKeeps(env: Env, s: System, event: Event)
    requires Invariant(env, s) && UserNext(s, event).Some?
    ensures Invariant(env, UserNext(s, event).value)
  {
    match event
    case UserCreate(name, config) => StoreKeeps(env, s, name, config);
    case UserUpdate(name, config) => StoreKeeps(env, s, name, config);
    case UserDelete(name) => StoreKeeps(env, s, name, s.objects[name].(deleting := true));
  }

  lemma ReadKeeps(env: Env, s: System, event: Event)
    requires Invariant(env, s) && ReadNext(s, event).Some? && ReadsRecent(s, event)
    ensures Invariant(env, ReadNext(s, event).value)
  {
    match event
    case FetchMissing(name) => MoveKeeps(env, s, name, Missing);
    case Fetch(name, config) =>
      assert Anchored(s, name, config);
      MoveKeeps(env, s, name, Read(config));
  }

  lemma RemovalKeepsVersions(s: System, name: NamespacedName, c: Config)
    requires HistoryAnchored(s)
    ensures var t := Removed(s, name, c);
            && VersionsUnique(t.history)
            && (forall n :: n in t.objects ==> IsCurrentVersion(t, n, t.objects[n]))
  {
    var stored := c.(finalizers := c.finalizers - {FINALIZER});
    var u, t := Store(s, name, stored), Removed(s, name, c);
    StoreKeepsVersions(s, name, stored);
    assert t.objects == u.objects && t.history == u.history;
    forall n | n in t.objects ensures IsCurrentVersion(t, n, t.objects[n]) {
      assert IsCurrentVersion(u, n, u.objects[n]);
    }
  }

  lemma RemovalKeepsHistory(s: System, name: NamespacedName, c: Config)
    requires HistoryAnchored(s)
    ensures HistoryAnchored(Removed(s, name, c))
  {
    var t := Removed(s, name, c);
    RemovalKeepsVersions(s, name, c);
    forall n, o | (n, o) in t.history ensures Anchored(t, n, o) && o.version < t.next {
      if (n, o) in s.history {
        assert Anchored(s, n, o);
      }
    }
  }

  lemma RemovalKeeps(env: Env, s: System, name: NamespacedName)
    requires Invariant(env, s) && WriteNext(s, RemoveFinalizer(name, true)).Some?
    ensures Invariant(env, WriteNext(s, RemoveFinalizer(name, true)).value)
  {
    var c := PositionOf(s, name).config;
    var t := Removed(s, name, c);
    assert PositionHolds(s, name);
    RemovalKeepsHistory(s, name, c);
    forall n ensures PositionHolds(t, n) {
      assert PositionHolds(s, n);
    }
  }

  lemma WriteKeeps(env: Env, s: System, event: Event)
    requires Invariant(env, s) && WriteNext(s, event).Some?
    ensures Invariant(env, WriteNext(s, event).value)
  {
    assert PositionHolds(s, event.name);
    var p := PositionOf(s, event.name);
    if !event.AlreadyProcessed? && !event.ok {
      MoveKeeps(env, s, event.name, Idle);
    } else {
      match event
      case RemoveFinalizer(name, ok) =>
        RemovalKeeps(env, s, name);
      case AddFinalizer(name, ok) =>
        var c := p.config.(finalizers := p.config.finalizers + {FINALIZER});
        StoreKeeps(env, s, name, c);
        MoveKeeps(env, Store(s, name, c), name, Idle);
      case MarkProcessed(name, ok) =>
        var c := p.config.(processed := true);
        StoreKeeps(env, s, name, c);
        MoveKeeps(env, Store(s, name, c), name, Ready(p.config));
      case AlreadyProcessed(name) =>
        MoveKeeps(env, s, name, Ready(p.config));
    }
  }

  lemma EmptySpecStopsAll(env: Env, s: State, call: Step)
    requires Sound(env, s) && ValidStep(env, s, call) && Calls(call, [])
    ensures Live(Exec(env, s, call), call.name) == map[]
  {
    ManageListenersExact(env, s, call);
  }

  lemma CallLeavesOthers(env: Env, s: State, call: Step)
    requires Sound(env, s) && call.Manage? && ValidStep(env, s, call)
    ensures Sound(env, Exec(env, s, call))
    ensures forall n :: n != call.name ==> Live(Exec(env, s, call), n) == Live(s, n)
  {
    ManageTouchesOneConfig(env, s, call);
  }

  /** A call for one Config keeps the invariant if that Config may have the listeners it ends with. */
  lemma ManageKeeps(env: Env, s: System, call: Step, p: Position, cache: Option<string>)
    requires Invariant(env, s) && call.Manage? && ValidStep(env, s.manager, call)
    requires var t := MoveTo(s, call.name, p).(manager := Exec(env, s.manager, call), cache := cache);
             && PositionHolds(t, call.name)
             && (Live(t.manager, call.name) != map[]
                 ==> call.name in s.objects && HasFinalizer(s.objects[call.name]))
    ensures Invariant(env, MoveTo(s, call.name, p).(manager := Exec(env, s.manager, call), cache := cache))
  {
    CallLeavesOthers(env, s.manager, call);
    OneConfigChanges(env, s, MoveTo(s, call.name, p).(manager := Exec(env, s.manager, call), cache := cache), call.name);
  }

  lemma OneConfigChanges(env: Env, s: System, t: System, name: NamespacedName)
    requires Invariant(env, s) && Sound(env, t.manager) && SameRecords(s, t)
    requires forall n :: n != name ==> Live(t.manager, n) == Live(s.manager, n) && PositionOf(t, n) == PositionOf(s, n)
    requires PositionHolds(t, name)
    requires Live(t.manager, name) != map[] ==> name in s.objects && HasFinalizer(s.objects[name])
    ensures Invariant(env, t)
  {
    RecordsStayAnchored(s, t);
    forall n ensures PositionHolds(t, n) {
      assert PositionHolds(s, n);
    }
  }

  lemma CallKeeps(env: Env, s: System, event: Event)
    requires Invariant(env, s) && CallNext(env, s, event).Some?
    ensures Invariant(env, CallNext(env, s, event).value)
  {
    match event
    case ReleaseMissing(call) =>
      EmptySpecStopsAll(env, s.manager, call);
      ManageKeeps(env, s, call, Idle, s.cache);
    case StopListeners(call) =>
      EmptySpecStopsAll(env, s.manager, call);
      ManageKeeps(env, s, call, Stopped(PositionOf(s, call.name).config), s.cache);
    case StartListeners(call) =>
      assert PositionHolds(s, call.name);
      ManageKeeps(env, s, call, Idle, Some(PositionOf(s, call.name).config.destinations));
    case StopEverything(call) =>
      StopEverythingKeeps(env, s, call);
    case Restart =>
      RestartKeeps(env, s);
  }

  lemma RestartKeeps(env: Env, s: System)
    requires Invariant(env, s)
    ensures Invariant(env, s.(positions := map[], manager := EMPTY_STATE, cache := None))
  {
    RecordsStayAnchored(s, s.(positions := map[], manager := EMPTY_STATE, cache := None));
  }

  lemma StopEverythingKeeps(env: Env, s: System, call: Step)
    requires Invariant(env, s) && call.StopAll? && ValidStep(env, s.manager, call)
    ensures Invariant(env, s.(manager := Exec(env, s.manager, call)))
  {
    var t := s.(manager := Exec(env, s.manager, call));
    ExecSound(env, s.manager, call);
    forall n ensures Live(t.manager, n) == map[] && PositionHolds(t, n) {
      StopAllStopsAll(env, s.manager, call, n);
      assert PositionHolds(s, n);
    }
    RecordsStayAnchored(s, t);
  }

  lemma NextKeeps(env: Env, s: System, event: Event)
    requires Invariant(env, s) && Next(env, s, event).Some? && ReadsRecent(s, event)
    ensures Invariant(env, Next(env, s, event).value)
  {
    if UserNext(s, event).Some? {
      UserKeeps(env, s, event);
    } else if ReadNext(s, event).Some? {
      ReadKeeps(env, s, event);
    } else if WriteNext(s, event).Some? {
      WriteKeeps(env, s, event);
    } else {
      CallKeeps(env, s, event);
    }
  }

  lemma {:induction false} RunsKeepInvariant(env: Env, events: seq<Event>)
    requires Run(env, INITIAL, events).Some? && AllReadsRecent(env, INITIAL, events)
    ensures Invariant(env, Run(env, INITIAL, events).value)
  {
    if events != [] {
      var init := events[..|events| - 1];
      RunsKeepInvariant(env, init);
      NextKeeps(env, Run(env, INITIAL, init).value, events[|events| - 1]);
    }
  }

  /** Finalizer safety, over all interleavings with users, failed writes, lagging reads and
      restarts: a Config with live listeners still exists and carries the finalizer. */
  lemma FinalizerSafety(env: Env, events: seq<Event>, name: NamespacedName)
    requires Run(env, INITIAL, events).Some? && AllReadsRecent(env, INITIAL, events)
    ensures var s := Run(env, INITIAL, events).value;
            Live(s.manager, name) != map[] ==> name in s.objects && HasFinalizer(s.objects[name])
  {
    RunsKeepInvariant(env, events);
  }

  /** No step changes both the objects and the listeners. */
  lemma ObjectsChangeAlone(env: Env, s: System, event: Event)
    requires InRange(s.manager.server) && Next(env, s, event).Some?
    ensures var t := Next(env, s, event).value; t.objects == s.objects || t.manager == s.manager
  {
  }

  /** So a Config vanishes only after its listeners have been stopped. */
  lemma VanishesOnlyWhenStopped(env: Env, events: seq<Event>, event: Event, name: NamespacedName)
    requires Run(env, INITIAL, events).Some? && AllReadsRecent(env, INITIAL, events)
    requires ReadsRecent(Run(env, INITIAL, events).value, event)
    requires var s := Run(env, INITIAL, events).value;
             && Next(env, s, event).Some?
             && name in s.objects && name !in Next(env, s, event).value.objects
    ensures Live(Run(env, INITIAL, events).value.manager, name) == map[]
  {
    RunsKeepInvariant(env, events);
    ObjectsChangeAlone(env, Run(env, INITIAL, events).value, event);
    NextKeeps(env, Run(env, INITIAL, events).value, event);
  }

  /** Each step leaves the listener manager alone, resets it, or makes one valid call to it. */
  lemma ManagerStep(env: Env, s: System, event: Event)
    requires InRange(s.manager.server) && Next(env, s, event).Some?
    ensures var m := Next(env, s, event).value.manager;
            if event.Restart? then m == EMPTY_STATE
            else if event.ReleaseMissing? || event.StopListeners? || event.StartListeners? || event.StopEverything?
            then ValidStep(env, s.manager, event.call) && m == Exec(env, s.manager, event.call)
            else m == s.manager
  {
  }

  /** A version that carries the finalizer and is not older than its last removal exists exactly if
      the object is there and carries it. */
  lemma FinalizerByVersions(env: Env, s: System, name: NamespacedName)
    requires Invariant(env, s)
    ensures name in s.objects && HasFinalizer(s.objects[name]) <==>
            exists c :: IsCurrentVersion(s, name, c) && HasFinalizer(c)
  {
    if c :| IsCurrentVersion(s, name, c) && HasFinalizer(c) {
      assert Anchored(s, name, c);
    }
    if name in s.objects && HasFinalizer(s.objects[name]) {
      assert IsCurrentVersion(s, name, s.objects[name]);
    }
  }

  /** A read of the object as it is meets the condition on reads, so with such reads safety holds
      without any. */
  lemma FreshReadsAreRecent(env: Env, events: seq<Event>, name: NamespacedName)
    requires Run(env, INITIAL, events).Some? && AllReadsRecent(env, INITIAL, events)
    requires name in Run(env, INITIAL, events).value.objects
    ensures var s := Run(env, INITIAL, events).value; ReadsRecent(s, Fetch(name, s.objects[name]))
  {
    RunsKeepInvariant(env, events);
    var s := Run(env, INITIAL, events).value;
    assert IsCurrentVersion(s, name, s.objects[name]);
  }

  /** Every read of the run returns the object as it is. */
  ghost predicate AllReadsFresh(env: Env, events: seq<Event>) {
    events == [] ||
    (var init, event := events[..|events| - 1], events[|events| - 1];
     && AllReadsFresh(env, init)
     && (var t := Run(env, INITIAL, init);
         t.Some? && event.Fetch? ==> event.name in t.value.objects && event.config == t.value.objects[event.name]))
  }

  lemma {:induction false} FreshReadsAreSafe(env: Env, events: seq<Event>)
    requires Run(env, INITIAL, events).Some? && AllReadsFresh(env, events)
    ensures AllReadsRecent(env, INITIAL, events) && Safe(Run(env, INITIAL, events).value)
  {
    if events != [] {
      var init, event := events[..|events| - 1], events[|events| - 1];
      FreshReadsAreSafe(env, init);
      if event.Fetch? {
        FreshReadsAreRecent(env, init, event.name);
      }
    }
    RunsKeepInvariant(env, events);
  }

  // Which destinations the event handler holds.

  /** The Config that last came to the start of its listeners since the controller started, in the
      version that was read for it. */
  ghost function LastStarted(env: Env, events: seq<Event>): Option<(NamespacedName, Config)>
    requires Run(env, INITIAL, events).Some?
  {
    if events == [] then None
    else
      var init, event := events[..|events| - 1], events[|events| - 1];
      var before := Run(env, INITIAL, init).value;
      match event
      case StartListeners(call) => Some((call.name, PositionOf(before, call.name).config))
      case Restart => None
      case _ => LastStarted(env, init)
  }

  lemma CacheStep(env: Env, s: System, event: Event)
    requires InRange(s.manager.server) && Next(env, s, event).Some?
    ensures var t := Next(env, s, event).value;
            && s.history <= t.history
            && (event.StartListeners? ==>
                  && PositionOf(s, event.call.name).Ready?
                  && t.cache == Some(PositionOf(s, event.call.name).config.destinations))
            && (event.Restart? ==> t.cache == None)
            && (!event.StartListeners? && !event.Restart? ==> t.cache == s.cache)
  {
  }

  /** In every run the event handler holds the destinations of that Config and no other, in a
      version that was written for it. */
  lemma {:induction false} CacheIsLastStarted(env: Env, events: seq<Event>)
    requires Run(env, INITIAL, events).Some? && AllReadsRecent(env, INITIAL, events)
    ensures var s, last := Run(env, INITIAL, events).value, LastStarted(env, events);
            && s.cache == (if last.Some? then Some(last.value.1.destinations) else None)
            && (last.Some? ==> last.value in s.history)
  {
    if events != [] {
      var init, event := events[..|events| - 1], events[|events| - 1];
      var s := Run(env, INITIAL, init).value;
      CacheIsLastStarted(env, init);
      RunsKeepInvariant(env, init);
      CacheStep(env, s, event);
      if event.StartListeners? {
        assert PositionHolds(s, event.call.name);
      }
    }
  }
}
