/** What the controller's writes do to a Config: it adds and removes its own finalizer and marks the
    Config as processed, and touches nothing else of it; and what users and reads are free to do. */
module ConfigWrites {
  import opened Api
  import opened RouteTable
  import opened ListenerModel
  import opened ListenerIsolation
  import opened ListenerHistory
  import opened ConfigLifecycle
  import opened ConfigPaths

  // What the controller holds was written, and a write that succeeds changes the current version.

  predicate HeldIsWritten(s: System, name: NamespacedName) {
    var p := PositionOf(s, name);
    p.Read? || p.Stopped? || p.Ready? ==> (name, p.config) in s.history
  }

  predicate StoppedIsDeleted(s: System, name: NamespacedName) {
    var p := PositionOf(s, name);
    p.Stopped? ==> p.config.deleting && HasFinalizer(p.config)
  }

  ghost predicate Recorded(s: System) {
    && VersionsUnique(s.history)
    && (forall name, c :: (name, c) in s.history ==> c.version < s.next)
    && (forall name :: name in s.objects ==> (name, s.objects[name]) in s.history)
    && (forall name :: HeldIsWritten(s, name) && StoppedIsDeleted(s, name))
  }

  lemma StoreRecords(s: System, name: NamespacedName, c: Config)
    requires Recorded(s)
    ensures Recorded(Store(s, name, c))
  {
    var t := Store(s, name, c);
    forall n ensures HeldIsWritten(t, n) && StoppedIsDeleted(t, n) {
      assert HeldIsWritten(s, n) && StoppedIsDeleted(s, n) && PositionOf(t, n) == PositionOf(s, n);
    }
  }

  lemma MoveRecords(s: System, t: System, name: NamespacedName, p: Position)
    requires Recorded(s) && t.history == s.history && t.objects == s.objects && t.next == s.next
    requires t.positions == s.positions[name := p]
    requires p.Read? || p.Stopped? || p.Ready? ==> (name, p.config) in s.history
    requires p.Stopped? ==> p.config.deleting && HasFinalizer(p.config)
    ensures Recorded(t)
  {
    forall n ensures HeldIsWritten(t, n) && StoppedIsDeleted(t, n) {
      assert HeldIsWritten(s, n) && StoppedIsDeleted(s, n);
      assert PositionOf(t, n) == if n == name then p else PositionOf(s, n);
    }
  }

  lemma WriteRecords(s: System, event: Event)
    requires Recorded(s) && WriteNext(s, event).Some?
    ensures Recorded(WriteNext(s, event).value)
  {
    var p, t := PositionOf(s, event.name), WriteNext(s, event).value;
    assert HeldIsWritten(s, event.name);
    if event.AlreadyProcessed? {
      MoveRecords(s, t, event.name, Ready(p.config));
    } else if !event.ok {
      MoveRecords(s, t, event.name, Idle);
    } else {
      var c := Written(event, p.config);
      StoreRecords(s, event.name, c);
      MoveRecords(Store(s, event.name, c), t, event.name, if event.MarkProcessed? then Ready(p.config) else Idle);
    }
  }

  /** What a successful write makes of the version it was read at. */
  function Written(event: Event, c: Config): Config {
    match event
    case RemoveFinalizer(_, _) => c.(finalizers := c.finalizers - {FINALIZER})
    case AddFinalizer(_, _) => c.(finalizers := c.finalizers + {FINALIZER})
    case MarkProcessed(_, _) => c.(processed := true)
    case _ => c
  }

  lemma CallRecords(env: Env, s: System, event: Event)
    requires InRange(s.manager.server) && Recorded(s) && CallNext(env, s, event).Some?
    ensures Recorded(CallNext(env, s, event).value)
    ensures CallNext(env, s, event).value.objects == s.objects
  {
    var t := CallNext(env, s, event).value;
    if event.StopEverything? || event.Restart? {
      forall n ensures HeldIsWritten(t, n) && StoppedIsDeleted(t, n) {
        assert HeldIsWritten(s, n) && StoppedIsDeleted(s, n);
        assert PositionOf(t, n) == PositionOf(s, n) || PositionOf(t, n) == Idle;
      }
    } else {
      var name := event.call.name;
      assert HeldIsWritten(s, name);
      MoveRecords(s, t, name, PositionOf(t, name));
    }
  }

  lemma NextRecords(env: Env, s: System, event: Event)
    requires InRange(s.manager.server) && Recorded(s) && Next(env, s, event).Some?
    ensures Recorded(Next(env, s, event).value)
  {
    match event
    case UserCreate(name, config) => StoreRecords(s, name, config);
    case UserUpdate(name, config) => StoreRecords(s, name, config);
    case UserDelete(name) => StoreRecords(s, name, s.objects[name].(deleting := true));
    case FetchMissing(name) => MoveRecords(s, Next(env, s, event).value, name, Missing);
    case Fetch(name, config) => MoveRecords(s, Next(env, s, event).value, name, Read(config));
    case _ =>
      if WriteNext(s, event).Some? {
        WriteRecords(s, event);
      } else {
        CallRecords(env, s, event);
      }
  }

  lemma {:induction false} RunsRecord(env: Env, events: seq<Event>)
    requires ConfigLifecycle.Run(env, INITIAL, events).Some?
    ensures Recorded(ConfigLifecycle.Run(env, INITIAL, events).value)
  {
    if events != [] {
      RunsRecord(env, events[..|events| - 1]);
      NextRecords(env, ConfigLifecycle.Run(env, INITIAL, events[..|events| - 1]).value, events[|events| - 1]);
    }
  }

  /** A write is possible only on top of the object as it is. */
  lemma HeldIsCurrent(s: System, name: NamespacedName)
    requires Recorded(s)
    requires var p := PositionOf(s, name); (p.Read? || p.Stopped? || p.Ready?) && CanWrite(s, name, p.config)
    ensures PositionOf(s, name).config == s.objects[name]
  {
    assert HeldIsWritten(s, name);
  }

  // The three writes.

  /** In every run, with reads as old as they may be: taking the finalizer off removes no other. The
      object, which is being deleted, vanishes if and only if it carried no other, and otherwise stays
      as it was without that one finalizer. */
  lemma RemovalExact(env: Env, events: seq<Event>, name: NamespacedName)
    requires ConfigLifecycle.Run(env, INITIAL, events).Some?
    requires Next(env, ConfigLifecycle.Run(env, INITIAL, events).value, RemoveFinalizer(name, true)).Some?
    ensures var s := ConfigLifecycle.Run(env, INITIAL, events).value;
            var t := Next(env, s, RemoveFinalizer(name, true)).value;
            && name in s.objects && s.objects[name].deleting && FINALIZER in s.objects[name].finalizers
            && (name !in t.objects <==> forall f :: f in s.objects[name].finalizers ==> f == FINALIZER)
            && (name in t.objects ==>
                  && t.objects[name].(version := 0, finalizers := {}) == s.objects[name].(version := 0, finalizers := {})
                  && forall f :: f in t.objects[name].finalizers <==> f in s.objects[name].finalizers && f != FINALIZER)
  {
    var s := ConfigLifecycle.Run(env, INITIAL, events).value;
    RunsRecord(env, events);
    HeldIsCurrent(s, name);
    assert StoppedIsDeleted(s, name);
    var t := Next(env, s, RemoveFinalizer(name, true)).value;
    if name !in t.objects {
      forall f | f in s.objects[name].finalizers ensures f == FINALIZER {
        assert f !in s.objects[name].finalizers - {FINALIZER};
      }
    }
  }

  /** Adding it keeps every other finalizer and all else of the object. */
  lemma AdditionExact(env: Env, events: seq<Event>, name: NamespacedName)
    requires ConfigLifecycle.Run(env, INITIAL, events).Some?
    requires Next(env, ConfigLifecycle.Run(env, INITIAL, events).value, AddFinalizer(name, true)).Some?
    ensures var s := ConfigLifecycle.Run(env, INITIAL, events).value;
            var t := Next(env, s, AddFinalizer(name, true)).value;
            && name in s.objects && name in t.objects
            && t.objects[name].(version := 0, finalizers := {}) == s.objects[name].(version := 0, finalizers := {})
            && forall f :: f in t.objects[name].finalizers <==> f in s.objects[name].finalizers || f == FINALIZER
  {
    RunsRecord(env, events);
    HeldIsCurrent(ConfigLifecycle.Run(env, INITIAL, events).value, name);
  }

  /** Marking the object as processed changes nothing else of it, and the controller goes on with the
      version that it read. */
  lemma MarkingExact(env: Env, events: seq<Event>, name: NamespacedName)
    requires ConfigLifecycle.Run(env, INITIAL, events).Some?
    requires Next(env, ConfigLifecycle.Run(env, INITIAL, events).value, MarkProcessed(name, true)).Some?
    ensures var s := ConfigLifecycle.Run(env, INITIAL, events).value;
            var t := Next(env, s, MarkProcessed(name, true)).value;
            && name in s.objects && name in t.objects
            && !s.objects[name].processed && t.objects[name].processed
            && t.objects[name].(version := 0, processed := false) == s.objects[name].(version := 0)
            && PositionOf(t, name) == Ready(s.objects[name])
  {
    RunsRecord(env, events);
    HeldIsCurrent(ConfigLifecycle.Run(env, INITIAL, events).value, name);
  }

  /** `d` may differ from `c` in its version, in the controller's finalizer and in being processed. */
  ghost predicate SameForUsers(c: Config, d: Config) {
    && d.sources == c.sources && d.destinations == c.destinations && d.deleting == c.deleting
    && forall f :: f != FINALIZER ==> (f in d.finalizers <==> f in c.finalizers)
  }

  /** What the controller may do to an object: make it vanish when it is being deleted and nobody else
      holds it, or leave it the same for its users; it creates none. */
  ghost predicate Respects(s: System, t: System, name: NamespacedName) {
    && (name in t.objects ==> name in s.objects && SameForUsers(s.objects[name], t.objects[name]))
    && (name in s.objects && name !in t.objects ==>
          s.objects[name].deleting && forall f :: f in s.objects[name].finalizers ==> f == FINALIZER)
  }

  lemma StepRespects(env: Env, s: System, event: Event, name: NamespacedName)
    requires InRange(s.manager.server) && Recorded(s) && Next(env, s, event).Some? && ByController(event)
    ensures Respects(s, Next(env, s, event).value, name)
  {
    var t := Next(env, s, event).value;
    if WriteNext(s, event).Some? {
      if !event.AlreadyProcessed? && event.ok {
        WriteRespects(s, event, name);
      }
    } else if CallNext(env, s, event).Some? {
      CallRecords(env, s, event);
    }
  }

  lemma WriteRespects(s: System, event: Event, name: NamespacedName)
    requires Recorded(s) && WriteNext(s, event).Some? && !event.AlreadyProcessed? && event.ok
    ensures Respects(s, WriteNext(s, event).value, name)
  {
    HeldIsCurrent(s, event.name);
    var c, t := s.objects[event.name], WriteNext(s, event).value;
    assert t.objects == Store(s, event.name, Written(event, c)).objects;
    if name == event.name && name !in t.objects {
      forall f | f in c.finalizers ensures f == FINALIZER {
        assert f !in Written(event, c).finalizers;
      }
    }
  }

  lemma RespectsTransitive(s: System, t: System, u: System, name: NamespacedName)
    requires Respects(s, t, name) && Respects(t, u, name)
    ensures Respects(s, u, name)
  {
  }

  /** Over any stretch of any run in which users write nothing, whatever is read and whichever writes
      fail: no finalizer but the controller's own comes or goes, sources, destinations and deletion
      stay as users left them, and an object vanishes only if it was being deleted and nobody else
      held it. */
  lemma {:induction false} ControllerRespectsUsers(env: Env, events: seq<Event>, more: seq<Event>, name: NamespacedName)
    requires ConfigLifecycle.Run(env, INITIAL, events).Some? && ConfigLifecycle.Run(env, INITIAL, events + more).Some?
    requires forall i :: 0 <= i < |more| ==> ByController(more[i])
    ensures Respects(ConfigLifecycle.Run(env, INITIAL, events).value, ConfigLifecycle.Run(env, INITIAL, events + more).value, name)
  {
    if more == [] {
      assert events + more == events;
    } else {
      var init, event := more[..|more| - 1], more[|more| - 1];
      assert (events + more)[..|events + more| - 1] == events + init;
      var s, t := ConfigLifecycle.Run(env, INITIAL, events).value, ConfigLifecycle.Run(env, INITIAL, events + init).value;
      ControllerRespectsUsers(env, events, init, name);
      RunsRecord(env, events + init);
      StepRespects(env, t, event, name);
      RespectsTransitive(s, t, Next(env, t, event).value, name);
    }
  }

  // What the rest of the world is free to do.

  /** In every state users may create any object that does not exist, give an object any content as long
      as they leave the controller's finalizer on it, and delete it: it then stays, marked, exactly if
      it carries a finalizer. */
  lemma UsersAreFree(env: Env, s: System, name: NamespacedName, config: Config)
    requires InRange(s.manager.server)
    ensures name !in s.objects && !config.deleting ==>
              var t := Next(env, s, UserCreate(name, config));
              t.Some? && t.value.objects == s.objects[name := config.(version := s.next)]
    ensures name in s.objects && !config.deleting && !s.objects[name].deleting
            && (FINALIZER in s.objects[name].finalizers ==> FINALIZER in config.finalizers) ==>
              var t := Next(env, s, UserUpdate(name, config));
              t.Some? && t.value.objects == s.objects[name := config.(version := s.next)]
    ensures name in s.objects ==>
              var t := Next(env, s, UserDelete(name));
              t.Some? && t.value.objects ==
                if s.objects[name].finalizers == {} then s.objects - {name}
                else s.objects[name := s.objects[name].(version := s.next, deleting := true)]
  {
  }

  /** When the controller stops, in any state, no Config keeps a live listener and no object changes. */
  lemma StoppingStopsAll(env: Env, s: System, call: Step, name: NamespacedName)
    requires InRange(s.manager.server) && call.StopAll? && ValidStep(env, s.manager, call)
    ensures var t := Next(env, s, StopEverything(call));
            t.Some? && Live(t.value.manager, name) == map[] && t.value.objects == s.objects
  {
    StopAllStopsAll(env, s.manager, call, name);
  }

  /** A reconciliation may start at any time that the last one is over, and find nothing or any version
      ever written; the controller may be restarted at any time. */
  lemma ReadsAreFree(env: Env, s: System, name: NamespacedName, config: Config)
    requires InRange(s.manager.server)
    ensures PositionOf(s, name).Idle? ==> Next(env, s, FetchMissing(name)) == Some(MoveTo(s, name, Missing))
    ensures PositionOf(s, name).Idle? && (name, config) in s.history ==>
              Next(env, s, Fetch(name, config)) == Some(MoveTo(s, name, Read(config)))
    ensures Next(env, s, Restart).Some? && Next(env, s, Restart).value.manager == EMPTY_STATE
  {
  }
}
