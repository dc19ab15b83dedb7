/** Whose destinations an event is handled for: the controller hands the event handler the
    destinations of one Config at a time, and these replace all others. */
module EventRouting {
  import opened Api
  import opened Validation
  import opened Handlers
  import opened EventProcessing
  import ListenerModel
  import ListenerIsolation
  import ConfigLifecycle
  import ConfigPaths
  import StaleReads

  /** The destinations that the event handler holds; `meaning` reads them from their text. */
  function Held(cache: Option<string>, meaning: string -> seq<Destination>): seq<Destination> {
    if cache.Some? then meaning(cache.value) else []
  }

  /** The event handler as the controller uses it: whatever it was given before, an event is handled
      for the destinations it was given last. */
  method HandleAfterUpdates(handler: EventHandler, updates: seq<seq<Destination>>, env: Env, event: Event)
    returns (outcome: Outcome, trace: seq<Action>)
    requires updates != [] && ValidEnv(env, handler.cluster.objects, event, updates[|updates| - 1])
    modifies handler, handler.cluster
    ensures Progress(handler.cluster.objects, trace, outcome) ==
            Specified(env, old(handler.cluster.objects), event, updates[|updates| - 1])
  {
    for i := 0 to |updates|
      invariant handler.cluster.objects == old(handler.cluster.objects)
      invariant i > 0 ==> handler.cache == updates[i - 1]
    {
      handler.UpdateDestinationsToWatch(updates[i]);
    }
    outcome, trace := handler.HandleEvent(env, event);
  }

  /** After any run of the controller, an event that goes through attempts to update exactly the
      objects that the Config wants which last came to the start of its listeners, in the version
      that was read for it, whether it still exists or not; with no such Config, none. */
  lemma EventServesLastStarted(config: ListenerModel.Env, events: seq<ConfigLifecycle.Event>,
                               meaning: string -> seq<Destination>,
                               env: Env, objects: Objects, event: Event, ref: Ref)
    requires ConfigLifecycle.Run(config, ConfigLifecycle.INITIAL, events).Some?
    requires ConfigLifecycle.AllReadsRecent(config, ConfigLifecycle.INITIAL, events)
    requires var held := Held(ConfigLifecycle.Run(config, ConfigLifecycle.INITIAL, events).value.cache, meaning);
             ValidEnv(env, objects, event, held) && Specified(env, objects, event, held).outcome.Running?
    ensures var held := Held(ConfigLifecycle.Run(config, ConfigLifecycle.INITIAL, events).value.cache, meaning);
            var last := ConfigLifecycle.LastStarted(config, events);
            ref in Attempts(Specified(env, objects, event, held).trace) <==>
            last.Some? && AnyWants(env.lookup, objects, event, meaning(last.value.1.destinations), ref)
  {
    var held := Held(ConfigLifecycle.Run(config, ConfigLifecycle.INITIAL, events).value.cache, meaning);
    ConfigLifecycle.CacheIsLastStarted(config, events);
    EventActsOn(env, objects, event, held, ref);
  }

  // The two ways in which this differs from serving all Configs there are.

  ghost predicate Reached(config: ListenerModel.Env, events: seq<ConfigLifecycle.Event>, s: ConfigLifecycle.System) {
    && ConfigLifecycle.Run(config, ConfigLifecycle.INITIAL, events) == Some(s)
    && ConfigLifecycle.AllReadsRecent(config, ConfigLifecycle.INITIAL, events)
  }

  ghost predicate Exists(s: ConfigLifecycle.System, name: NamespacedName, destinations: string) {
    && name in s.objects
    && ConfigLifecycle.HasFinalizer(s.objects[name])
    && s.objects[name].destinations == destinations
  }

  /** Two Configs side by side, the listeners of the first live, and the destinations of the second
      in the cache. */
  lemma TwoConfigs(config: ListenerModel.Env, a: NamespacedName, sourcesA: seq<NotificationSource>, da: string,
                   b: NamespacedName, sourcesB: seq<NotificationSource>, db: string, working: set<string>, key: string)
      returns (events: seq<ConfigLifecycle.Event>, s: ConfigLifecycle.System)
    requires a != b && DistinctSuffixes(sourcesA)
    requires var desired := ListenerModel.Desired(config, sourcesA);
             key in desired && ListenerModel.Startable(config, desired[key], key, working)
    ensures Reached(config, events, s)
    ensures Exists(s, a, da) && Exists(s, b, db) && s.cache == Some(db)
    ensures key in ListenerModel.Live(s.manager, a)
  {
    var p, s1, callA := ConfigPaths.BringUp(config, ConfigLifecycle.INITIAL, a, sourcesA, da, working);
    ConfigPaths.PathRuns(config, p, ConfigLifecycle.INITIAL, s1);
    ListenerIsolation.ExecSound(config, ListenerModel.EMPTY_STATE, callA);
    StaleReads.StartsKey(config, ListenerModel.EMPTY_STATE, callA, key);
    var q, callB;
    q, s, callB := ConfigPaths.BringUp(config, s1, b, sourcesB, db, working);
    ConfigLifecycle.CallLeavesOthers(config, s1.manager, callB);
    var r := ConfigPaths.Joined(config, p, q, ConfigLifecycle.INITIAL, s1, s);
    ConfigPaths.PathRuns(config, r, ConfigLifecycle.INITIAL, s);
    events := r.events;
  }

  /** A Config that exists and has live listeners is not served if another came after it: an object
      that it wants and the other does not is neither attempted nor changed. */
  lemma EarlierConfigIsIgnored(config: ListenerModel.Env, a: NamespacedName, sourcesA: seq<NotificationSource>, da: string,
                               b: NamespacedName, sourcesB: seq<NotificationSource>, db: string,
                               working: set<string>, key: string, meaning: string -> seq<Destination>,
                               env: Env, objects: Objects, event: Event, ref: Ref)
      returns (events: seq<ConfigLifecycle.Event>, s: ConfigLifecycle.System)
    requires a != b && DistinctSuffixes(sourcesA)
    requires var desired := ListenerModel.Desired(config, sourcesA);
             key in desired && ListenerModel.Startable(config, desired[key], key, working)
    requires ValidEnv(env, objects, event, meaning(db))
    requires AnyWants(env.lookup, objects, event, meaning(da), ref)
    requires !AnyWants(env.lookup, objects, event, meaning(db), ref)
    ensures Reached(config, events, s) && Exists(s, a, da) && key in ListenerModel.Live(s.manager, a)
    ensures Held(s.cache, meaning) == meaning(db)
    ensures var p := Specified(env, objects, event, Held(s.cache, meaning));
            ref !in Attempts(p.trace) && ref in p.objects && p.objects[ref] == objects[ref]
  {
    events, s := TwoConfigs(config, a, sourcesA, da, b, sourcesB, db, working, key);
    UnwantedIsUnchanged(env, objects, event, meaning(db), ref);
    if ref in Attempts(Specified(env, objects, event, meaning(db)).trace) {
      AttemptedIsWanted(env, objects, event, meaning(db), ref);
    }
  }

  /** And a Config that is gone still is: its destinations outlive it. */
  lemma GoneConfigIsServed(config: ListenerModel.Env, name: NamespacedName, sources: seq<NotificationSource>,
                           destinations: string, meaning: string -> seq<Destination>,
                           env: Env, objects: Objects, event: Event, ref: Ref)
      returns (events: seq<ConfigLifecycle.Event>, s: ConfigLifecycle.System)
    requires ValidEnv(env, objects, event, meaning(destinations))
    requires Specified(env, objects, event, meaning(destinations)).outcome.Running?
    requires AnyWants(env.lookup, objects, event, meaning(destinations), ref)
    ensures Reached(config, events, s) && name !in s.objects && Held(s.cache, meaning) == meaning(destinations)
    ensures ref in Attempts(Specified(env, objects, event, Held(s.cache, meaning)).trace)
  {
    events, s := StaleReads.LivedRun(config, name, sources, destinations, {});
    EventActsOn(env, objects, event, meaning(destinations), ref);
  }
}
