/** Runs of the controller for one Config, from any state: it is created and started, or deleted
    and released, while nothing happens to any other. */
module ConfigPaths {
  import opened Api
  import opened Validation
  import opened RouteTable
  import opened ListenerModel
  import opened ConfigLifecycle

  /** A run with the states it goes through. */
  datatype Path = Path(events: seq<Event>, states: seq<System>)

  /** One step, with a recent read if it reads. */
  ghost predicate Steps(env: Env, s: System, event: Event, t: System) {
    InRange(s.manager.server) && Next(env, s, event) == Some(t) && ReadsRecent(s, event)
  }

  ghost predicate IsPath(env: Env, p: Path) {
    && |p.states| == |p.events| + 1
    && forall i :: 0 <= i < |p.events| ==> StepsAt(env, p, i)
  }

  ghost predicate StepsAt(env: Env, p: Path, i: nat) {
    i < |p.events| && i + 1 < |p.states| && Steps(env, p.states[i], p.events[i], p.states[i + 1])
  }

  ghost predicate Connects(env: Env, p: Path, s: System, t: System) {
    IsPath(env, p) && p.states[0] == s && p.states[|p.events|] == t
  }

  lemma {:induction false} PathRuns(env: Env, p: Path, s: System, t: System)
    requires Connects(env, p, s, t) && InRange(s.manager.server)
    ensures ConfigLifecycle.Run(env, s, p.events) == Some(t)
    ensures AllReadsRecent(env, s, p.events)
    decreases |p.events|
  {
    if p.events != [] {
      var n := |p.events| - 1;
      var init := Path(p.events[..n], p.states[..n + 1]);
      forall i | 0 <= i < n ensures StepsAt(env, init, i) {
        assert StepsAt(env, p, i);
      }
      PathRuns(env, init, s, p.states[n]);
      assert StepsAt(env, p, n);
    }
  }

  /** What happens without the users. */
  predicate ByController(event: Event) {
    !event.UserCreate? && !event.UserUpdate? && !event.UserDelete?
  }

  ghost predicate Own(p: Path) {
    forall i :: 0 <= i < |p.events| ==> ByController(p.events[i])
  }

  lemma OneStep(env: Env, s: System, event: Event, t: System) returns (p: Path)
    requires Steps(env, s, event, t)
    ensures Connects(env, p, s, t)
    ensures ByController(event) ==> Own(p)
  {
    p := Path([event], [s, t]);
    assert StepsAt(env, p, 0);
  }

  lemma Joined(env: Env, p: Path, q: Path, s: System, t: System, u: System) returns (r: Path)
    requires Connects(env, p, s, t) && Connects(env, q, t, u)
    ensures Connects(env, r, s, u)
    ensures Own(p) && Own(q) ==> Own(r)
  {
    r := Path(p.events + q.events, p.states + q.states[1..]);
    forall i | 0 <= i < |r.events| ensures StepsAt(env, r, i) {
      assert if i < |p.events| then StepsAt(env, p, i) else StepsAt(env, q, i - |p.events|);
    }
  }

  /** The object of the Config is that version, and its reconciliation stands there. */
  ghost predicate At(s: System, name: NamespacedName, c: Config, p: Position) {
    && InRange(s.manager.server)
    && name in s.objects && s.objects[name] == c && (name, c) in s.history
    && PositionOf(s, name) == p
  }

  /** The objects and positions of all other Configs are the same. */
  ghost predicate OthersSame(s: System, t: System, name: NamespacedName) {
    && (forall n :: n != name ==> (n in t.objects <==> n in s.objects) && PositionOf(t, n) == PositionOf(s, n))
    && (forall n :: n != name && n in s.objects ==> t.objects[n] == s.objects[n])
    && s.history <= t.history
  }

  lemma OthersSameTransitive(s: System, t: System, u: System, name: NamespacedName)
    requires OthersSame(s, t, name) && OthersSame(t, u, name)
    ensures OthersSame(s, u, name)
  {
  }

  ghost predicate SameManager(s: System, t: System) {
    t.manager == s.manager && t.cache == s.cache
  }

  // The single steps.

  lemma Create(env: Env, s: System, name: NamespacedName, c: Config) returns (p: Path, t: System)
    requires InRange(s.manager.server) && name !in s.objects && PositionOf(s, name).Idle? && !c.deleting
    ensures Connects(env, p, s, t) && OthersSame(s, t, name) && SameManager(s, t) && t.next == s.next + 1
    ensures At(t, name, c.(version := s.next), Idle)
  {
    t := Store(s, name, c);
    p := OneStep(env, s, UserCreate(name, c), t);
  }

  lemma ReadCurrent(env: Env, s: System, name: NamespacedName, c: Config) returns (p: Path, t: System)
    requires At(s, name, c, Idle) && (StartsAtOnce(c) ==> c.version >= RemovedAt(s, name))
    ensures Connects(env, p, s, t) && Own(p) && t.removedAt == s.removedAt && OthersSame(s, t, name) && SameManager(s, t) && t.next == s.next
    ensures At(t, name, c, Read(c))
  {
    t := MoveTo(s, name, Read(c));
    p := OneStep(env, s, Fetch(name, c), t);
  }

  lemma Finalize(env: Env, s: System, name: NamespacedName, c: Config) returns (p: Path, t: System)
    requires At(s, name, c, Read(c)) && !HasFinalizer(c) && !c.deleting
    ensures Connects(env, p, s, t) && Own(p) && t.removedAt == s.removedAt && OthersSame(s, t, name) && SameManager(s, t) && t.next == s.next + 1
    ensures At(t, name, c.(version := s.next, finalizers := c.finalizers + {FINALIZER}), Idle)
  {
    t := MoveTo(Store(s, name, c.(finalizers := c.finalizers + {FINALIZER})), name, Idle);
    p := OneStep(env, s, AddFinalizer(name, true), t);
  }

  lemma Mark(env: Env, s: System, name: NamespacedName, c: Config) returns (p: Path, t: System)
    requires At(s, name, c, Read(c)) && HasFinalizer(c) && !c.deleting && !c.processed
    ensures Connects(env, p, s, t) && Own(p) && OthersSame(s, t, name) && SameManager(s, t) && t.next == s.next + 1
    ensures At(t, name, c.(version := s.next, processed := true), Ready(c))
  {
    t := MoveTo(Store(s, name, c.(processed := true)), name, Ready(c));
    p := OneStep(env, s, MarkProcessed(name, true), t);
  }

  lemma Skip(env: Env, s: System, name: NamespacedName, c: Config) returns (p: Path, t: System)
    requires At(s, name, c, Read(c)) && HasFinalizer(c) && !c.deleting && c.processed
    ensures Connects(env, p, s, t) && Own(p) && OthersSame(s, t, name) && SameManager(s, t) && t.next == s.next
    ensures At(t, name, c, Ready(c))
  {
    t := MoveTo(s, name, Ready(c));
    p := OneStep(env, s, AlreadyProcessed(name), t);
  }

  lemma Start(env: Env, s: System, name: NamespacedName, c: Config, d: Config, call: Step) returns (p: Path, t: System)
    requires At(s, name, d, Ready(c)) && Calls(call, c.sources) && call.name == name && ValidStep(env, s.manager, call)
    ensures Connects(env, p, s, t) && Own(p) && OthersSame(s, t, name)
    ensures At(t, name, d, Idle) && t.manager == Exec(env, s.manager, call) && t.cache == Some(c.destinations)
  {
    t := HandedOver(env, s, call);
    p := OneStep(env, s, StartListeners(call), t);
  }

  lemma Delete(env: Env, s: System, name: NamespacedName, c: Config) returns (p: Path, t: System)
    requires At(s, name, c, Idle) && c.finalizers != {}
    ensures Connects(env, p, s, t) && OthersSame(s, t, name) && SameManager(s, t)
    ensures At(t, name, c.(version := s.next, deleting := true), Idle)
  {
    t := Store(s, name, c.(deleting := true));
    p := OneStep(env, s, UserDelete(name), t);
  }

  lemma Stop(env: Env, s: System, name: NamespacedName, c: Config, call: Step) returns (p: Path, t: System)
    requires At(s, name, c, Read(c)) && c.deleting && HasFinalizer(c)
    requires Calls(call, []) && call.name == name && ValidStep(env, s.manager, call)
    ensures Connects(env, p, s, t) && Own(p) && OthersSame(s, t, name)
    ensures At(t, name, c, Stopped(c)) && t.manager == Exec(env, s.manager, call) && t.cache == s.cache && t.next == s.next
  {
    t := MoveTo(s, name, Stopped(c)).(manager := Exec(env, s.manager, call));
    p := OneStep(env, s, StopListeners(call), t);
  }

  lemma Release(env: Env, s: System, name: NamespacedName, c: Config) returns (p: Path, t: System)
    requires At(s, name, c, Stopped(c)) && HasFinalizer(c) && c.deleting
    ensures Connects(env, p, s, t) && Own(p) && OthersSame(s, t, name) && SameManager(s, t)
    ensures PositionOf(t, name).Idle? && (name !in t.objects <==> c.finalizers == {FINALIZER})
    ensures name in t.objects ==>
              t.objects[name] == c.(version := s.next, finalizers := c.finalizers - {FINALIZER})
  {
    t := Removed(s, name, c);
    p := OneStep(env, s, RemoveFinalizer(name, true), t);
  }

  // Whole stretches.

  /** What the user writes. */
  function Draft(sources: seq<NotificationSource>, destinations: string): Config {
    Config(0, sources, {}, false, false, destinations)
  }

  /** The version that the controller leaves after its two writes. */
  function Settled(version: nat, sources: seq<NotificationSource>, destinations: string): Config {
    Config(version, sources, {FINALIZER}, false, true, destinations)
  }

  lemma CreateAndFinalize(env: Env, s: System, name: NamespacedName, sources: seq<NotificationSource>, destinations: string)
      returns (p: Path, t: System)
    requires InRange(s.manager.server) && name !in s.objects && PositionOf(s, name).Idle?
    ensures Connects(env, p, s, t) && OthersSame(s, t, name) && SameManager(s, t) && t.next == s.next + 2
    ensures At(t, name, Config(s.next + 1, sources, {FINALIZER}, false, false, destinations), Idle)
  {
    var draft := Draft(sources, destinations);
    var p1, s1 := Create(env, s, name, draft);
    var p2, s2 := ReadCurrent(env, s1, name, draft.(version := s.next));
    assert draft.finalizers + {FINALIZER} == {FINALIZER};
    var p3;
    p3, t := Finalize(env, s2, name, draft.(version := s.next));
    p := Joined(env, p1, p2, s, s1, s2);
    p := Joined(env, p, p3, s, s2, t);
    OthersSameTransitive(s, s1, s2, name);
    OthersSameTransitive(s, s2, t, name);
  }

  lemma ReadAndMark(env: Env, s: System, name: NamespacedName, c: Config) returns (p: Path, t: System)
    requires At(s, name, c, Idle) && HasFinalizer(c) && !c.deleting && !c.processed
    ensures Connects(env, p, s, t) && Own(p) && OthersSame(s, t, name) && SameManager(s, t) && t.next == s.next + 1
    ensures At(t, name, c.(version := s.next, processed := true), Ready(c))
  {
    var p1, s1 := ReadCurrent(env, s, name, c);
    var p2;
    p2, t := Mark(env, s1, name, c);
    p := Joined(env, p1, p2, s, s1, t);
    OthersSameTransitive(s, s1, t, name);
  }

  /** From any state, a Config that does not exist can be created and brought to the start of its
      listeners. */
  lemma BringUp(env: Env, s: System, name: NamespacedName, sources: seq<NotificationSource>, destinations: string,
                working: set<string>)
      returns (p: Path, t: System, call: Step)
    requires InRange(s.manager.server) && name !in s.objects && PositionOf(s, name).Idle?
    ensures Connects(env, p, s, t) && OthersSame(s, t, name)
    ensures At(t, name, Settled(s.next + 2, sources, destinations), Idle)
    ensures call.Manage? && call.name == name && call.sources == sources && call.working == working
    ensures ValidStep(env, s.manager, call) && t.manager == Exec(env, s.manager, call)
    ensures t.cache == Some(destinations)
  {
    var c := Config(s.next + 1, sources, {FINALIZER}, false, false, destinations);
    call := SomeCall(env, s.manager, name, sources, working);
    var p1, s1 := CreateAndFinalize(env, s, name, sources, destinations);
    var p2, s2 := ReadAndMark(env, s1, name, c);
    var p3;
    p3, t := Start(env, s2, name, c, c.(version := s1.next, processed := true), call);
    p := Joined(env, p1, p2, s, s1, s2);
    p := Joined(env, p, p3, s, s2, t);
    OthersSameTransitive(s, s1, s2, name);
    OthersSameTransitive(s, s2, t, name);
  }

  /** The call stops all listeners of the Config. */
  predicate Empties(env: Env, s: State, call: Step, name: NamespacedName) {
    Calls(call, []) && call.name == name && ValidStep(env, s, call)
  }

  lemma StopAndRelease(env: Env, s: System, name: NamespacedName, c: Config) returns (p: Path, t: System)
    requires At(s, name, c, Read(c)) && c.deleting && HasFinalizer(c)
    ensures Connects(env, p, s, t) && Own(p) && OthersSame(s, t, name) && t.cache == s.cache && InRange(t.manager.server)
    ensures PositionOf(t, name).Idle? && (name !in t.objects <==> c.finalizers == {FINALIZER})
    ensures name in t.objects ==>
              t.objects[name] == c.(version := s.next, finalizers := c.finalizers - {FINALIZER})
    ensures exists call :: Empties(env, s.manager, call, name) && t.manager == Exec(env, s.manager, call)
  {
    var call := SomeCall(env, s.manager, name, [], {});
    var p1, s1 := Stop(env, s, name, c, call);
    assert Empties(env, s.manager, call, name);
    var p2;
    p2, t := Release(env, s1, name, c);
    p := Joined(env, p1, p2, s, s1, t);
    OthersSameTransitive(s, s1, t, name);
  }

  /** From any state, an idle Config can be deleted and released; the event handler keeps the
      destinations that it has. */
  lemma TearDown(env: Env, s: System, name: NamespacedName, c: Config) returns (p: Path, t: System)
    requires At(s, name, c, Idle) && c.finalizers == {FINALIZER}
    ensures Connects(env, p, s, t) && OthersSame(s, t, name) && t.cache == s.cache && InRange(t.manager.server)
    ensures name !in t.objects && PositionOf(t, name).Idle?
  {
    var deleted := c.(version := s.next, deleting := true);
    var p1, s1 := Delete(env, s, name, c);
    var p2, s2 := ReadCurrent(env, s1, name, deleted);
    var p3;
    p3, t := StopAndRelease(env, s2, name, deleted);
    p := Joined(env, p1, p2, s, s1, s2);
    p := Joined(env, p, p3, s, s2, t);
    OthersSameTransitive(s, s1, s2, name);
    OthersSameTransitive(s, s2, t, name);
  }

  /** A whole life of a Config: afterwards it is gone, and the event handler still holds its
      destinations. */
  lemma WholeLife(env: Env, s: System, name: NamespacedName, sources: seq<NotificationSource>, destinations: string,
                  working: set<string>)
      returns (p: Path, t: System)
    requires InRange(s.manager.server) && name !in s.objects && PositionOf(s, name).Idle?
    ensures Connects(env, p, s, t) && OthersSame(s, t, name) && InRange(t.manager.server)
    ensures name !in t.objects && PositionOf(t, name).Idle? && t.cache == Some(destinations)
    ensures (name, Settled(s.next + 2, sources, destinations)) in t.history
  {
    var p1, s1, call := BringUp(env, s, name, sources, destinations, working);
    var p2;
    p2, t := TearDown(env, s1, name, Settled(s.next + 2, sources, destinations));
    p := Joined(env, p1, p2, s, s1, t);
    OthersSameTransitive(s, s1, t, name);
  }
}
