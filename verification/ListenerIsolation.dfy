/** What every call keeps in every run, whatever the specifications say: no route leaks,
    every listener matches its key, and a call touches one Config only. */
module ListenerIsolation {
  import opened Api
  import opened Validation
  import opened RoutePaths
  import opened RouteTable
  import opened ListenerModel

  /** The listener was created from a source with that key, with one of the two routes that
      the source count at its creation allows. */
  predicate Keyed(env: Env, name: NamespacedName, key: string, listener: Listener) {
    match listener
    case WebhookListener(routeKey, config) =>
      && (key == WebhookKey(env, Some(config)) || (config == EMPTY_WEBHOOK && key == WebhookKey(env, None)))
      && (|| routeKey == RouteKey(name.name, config.pathSuffix, key, 1)
          || routeKey == RouteKey(name.name, config.pathSuffix, key, 2))
    case OtherListener(kind, block) =>
      IsSupported(kind) && kind != WEBHOOK && key == Key(kind, env.hash(OtherBlock(block)))
  }

  ghost predicate AllKeyed(env: Env, s: State) {
    forall name, key :: name in s.listeners && key in s.listeners[name]
                        ==> Keyed(env, name, key, s.listeners[name][key])
  }

  ghost predicate Sound(env: Env, s: State) {
    NoLeak(s.server) && AllKeyed(env, s)
  }

  /** `t` differs from `s` only in the listeners of `name` and in routes that `name` may own:
      any other route is still the same route object in the same condition. */
  ghost predicate TouchesOnly(s: State, t: State, name: NamespacedName) {
    && InRange(s.server) && InRange(t.server)
    && (forall n :: n != name ==> (n in s.listeners <==> n in t.listeners))
    && (forall n :: n != name && n in s.listeners ==> s.listeners[n] == t.listeners[n])
    && (forall key :: !BelongsTo(key, name.name) ==> SameEntry(s.server, t.server, key))
  }

  lemma TouchesOnlyTransitive(s: State, t: State, u: State, name: NamespacedName)
    requires TouchesOnly(s, t, name) && TouchesOnly(t, u, name)
    ensures TouchesOnly(s, u, name)
  {
    forall key | !BelongsTo(key, name.name) ensures SameEntry(s.server, u.server, key) {
      assert SameEntry(s.server, t.server, key) && SameEntry(t.server, u.server, key);
    }
  }

  lemma KeyedBelongs(env: Env, name: NamespacedName, key: string, listener: Listener)
    requires Keyed(env, name, key, listener) && listener.WebhookListener?
    ensures BelongsTo(listener.routeKey, name.name)
  {
  }

  predicate KeysMatch(env: Env, desired: map<string, NotificationSource>) {
    forall key :: key in desired ==> ListenerKey(env, desired[key]) == Some(key)
  }

  lemma {:induction false} DesiredKeysMatch(env: Env, sources: seq<NotificationSource>)
    ensures KeysMatch(env, Desired(env, sources))
  {
    if sources != [] {
      DesiredKeysMatch(env, sources[..|sources| - 1]);
    }
  }

  lemma NewListenerKeyed(env: Env, name: NamespacedName, key: string, source: NotificationSource, count: int)
    requires ListenerKey(env, source) == Some(key)
    ensures Keyed(env, name, key, NewListener(name, key, source, count))
  {
  }

  lemma StartOneSound(env: Env, s: State, name: NamespacedName, desired: map<string, NotificationSource>,
                      working: set<string>, key: string)
    requires Sound(env, s) && KeysMatch(env, desired)
    ensures var t := StartOne(env, s, name, desired, working, key);
            Sound(env, t) && TouchesOnly(s, t, name)
  {
    var t := StartOne(env, s, name, desired, working, key);
    if t != s {
      var l := NewListener(name, key, desired[key], |WebhookKeys(desired)|);
      NewListenerKeyed(env, name, key, desired[key], |WebhookKeys(desired)|);
      if l.WebhookListener? {
        KeyedBelongs(env, name, key, l);
        RegisteredKeepsNoLeak(s.server, l.routeKey, l.config);
        forall other | !BelongsTo(other, name.name) ensures SameEntry(s.server, t.server, other) {
          OtherEntriesKept(s.server, l.routeKey, l.config, other);
        }
      }
    }
  }

  lemma StopOneSound(env: Env, s: State, name: NamespacedName, key: string)
    requires Sound(env, s)
    ensures var t := StopOne(s, name, key);
            Sound(env, t) && TouchesOnly(s, t, name)
  {
    if key in Live(s, name) {
      var l := s.listeners[name][key];
      var t := StopOne(s, name, key);
      assert Keyed(env, name, key, l);
      if l.WebhookListener? {
        KeyedBelongs(env, name, key, l);
        UnregisteredKeepsNoLeak(s.server, l.routeKey);
        forall other | !BelongsTo(other, name.name) ensures SameEntry(s.server, t.server, other) {
          OtherEntriesKept(s.server, l.routeKey, l.config, other);
        }
      }
    }
  }

  lemma {:induction false} StartInOrderSound(env: Env, s: State, name: NamespacedName,
                                             desired: map<string, NotificationSource>,
                                             working: set<string>, order: seq<string>)
    requires Sound(env, s) && KeysMatch(env, desired)
    ensures var t := StartInOrder(env, s, name, desired, working, order);
            Sound(env, t) && TouchesOnly(s, t, name)
  {
    if order != [] {
      var init := order[..|order| - 1];
      StartInOrderSound(env, s, name, desired, working, init);
      var before := StartInOrder(env, s, name, desired, working, init);
      StartOneSound(env, before, name, desired, working, order[|order| - 1]);
      TouchesOnlyTransitive(s, before, StartInOrder(env, s, name, desired, working, order), name);
    }
  }

  lemma {:induction false} StopInOrderSound(env: Env, s: State, name: NamespacedName, order: seq<string>)
    requires Sound(env, s)
    ensures var t := StopInOrder(s, name, order);
            Sound(env, t) && TouchesOnly(s, t, name)
  {
    if order != [] {
      var init := order[..|order| - 1];
      StopInOrderSound(env, s, name, init);
      var before := StopInOrder(s, name, init);
      StopOneSound(env, before, name, order[|order| - 1]);
      TouchesOnlyTransitive(s, before, StopInOrder(s, name, order), name);
    }
  }

  lemma {:induction false} StopGroupsSound(env: Env, s: State, groups: seq<Group>)
    requires Sound(env, s)
    ensures Sound(env, StopGroups(s, groups))
  {
    if groups != [] {
      var init, last := groups[..|groups| - 1], groups[|groups| - 1];
      StopGroupsSound(env, s, init);
      StopInOrderSound(env, StopGroups(s, init), last.name, last.order);
    }
  }

  lemma EntryEdits(env: Env, s: State, name: NamespacedName)
    requires Sound(env, s)
    ensures Sound(env, WithEntry(s, name)) && TouchesOnly(s, WithEntry(s, name), name)
    ensures Sound(env, DropIfEmpty(s, name)) && TouchesOnly(s, DropIfEmpty(s, name), name)
  {
  }

  lemma AfterStopsSound(env: Env, s: State, step: Step)
    requires Sound(env, s) && ValidStep(env, s, step)
    ensures Sound(env, AfterStops(s, step))
    ensures step.Manage? ==> TouchesOnly(s, AfterStops(s, step), step.name)
  {
    match step
    case Manage(name, _, _, stops, _) =>
      var s0 := WithEntry(s, name);
      EntryEdits(env, s, name);
      StopInOrderSound(env, s0, name, stops);
      TouchesOnlyTransitive(s, s0, AfterStops(s, step), name);
    case StopAll(groups) =>
      StopGroupsSound(env, s, groups);
  }

  /** Isolation of one call: it stops, starts, replaces and unregisters nothing of another Config. */
  lemma ManageTouchesOneConfig(env: Env, s: State, step: Step)
    requires Sound(env, s) && ValidStep(env, s, step) && step.Manage?
    ensures Sound(env, Exec(env, s, step))
    ensures TouchesOnly(s, Exec(env, s, step), step.name)
  {
    if DistinctSuffixes(step.sources) {
      var name, desired := step.name, Desired(env, step.sources);
      var s1 := AfterStops(s, step);
      var s2 := StartInOrder(env, s1, name, desired, step.working, step.starts);
      AfterStopsSound(env, s, step);
      DesiredKeysMatch(env, step.sources);
      StartInOrderSound(env, s1, name, desired, step.working, step.starts);
      EntryEdits(env, s2, name);
      TouchesOnlyTransitive(s, s1, s2, name);
      TouchesOnlyTransitive(s, s2, DropIfEmpty(s2, name), name);
    }
  }

  lemma ExecSound(env: Env, s: State, step: Step)
    requires Sound(env, s) && ValidStep(env, s, step)
    ensures Sound(env, Exec(env, s, step))
  {
    match step
    case Manage(_, _, _, _, _) => ManageTouchesOneConfig(env, s, step);
    case StopAll(_) => AfterStopsSound(env, s, step);
  }

  /** No route leaks, in every state of every run. */
  lemma {:induction false} RunsNeverLeak(env: Env, steps: seq<Step>)
    requires ValidRun(env, EMPTY_STATE, steps)
    ensures Sound(env, Run(env, EMPTY_STATE, steps))
  {
    if steps != [] {
      var init := steps[..|steps| - 1];
      RunsNeverLeak(env, init);
      ExecSound(env, Run(env, EMPTY_STATE, init), steps[|steps| - 1]);
    }
  }

  /** A well-formed Config name: cluster scoped and without a slash. */
  predicate WellNamed(name: NamespacedName) {
    name.namespace == "" && SlashFree(name.name)
  }

  /** Config `name` keeps its listeners, and each of its webhook listeners keeps its very route. */
  ghost predicate KeepsConfig(s: State, t: State, name: NamespacedName) {
    && InRange(s.server) && InRange(t.server)
    && Live(s, name) == Live(t, name)
    && forall key :: key in Live(s, name) && Live(s, name)[key].WebhookListener?
                     ==> SameEntry(s.server, t.server, Live(s, name)[key].routeKey)
  }

  predicate ManagesOthers(steps: seq<Step>, name: NamespacedName) {
    forall i :: 0 <= i < |steps| ==> steps[i].Manage? && steps[i].name != name && WellNamed(steps[i].name)
  }

  /** Isolation over runs: calls for other Configs, however many, leave a Config alone. */
  lemma {:induction false} OtherConfigsLeaveAlone(env: Env, s: State, name: NamespacedName, steps: seq<Step>)
    requires Sound(env, s) && WellNamed(name)
    requires ValidRun(env, s, steps) && ManagesOthers(steps, name)
    ensures Sound(env, Run(env, s, steps))
    ensures KeepsConfig(s, Run(env, s, steps), name)
  {
    if steps != [] {
      var init := steps[..|steps| - 1];
      OtherConfigsLeaveAlone(env, s, name, init);
      var t := Run(env, s, init);
      var step := steps[|steps| - 1];
      var u := Exec(env, t, step);
      ManageTouchesOneConfig(env, t, step);
      forall key | key in Live(s, name) && Live(s, name)[key].WebhookListener?
        ensures SameEntry(s.server, u.server, Live(s, name)[key].routeKey)
      {
        var rk := Live(s, name)[key].routeKey;
        assert Keyed(env, name, key, Live(s, name)[key]);
        KeyedBelongs(env, name, key, Live(s, name)[key]);
        if BelongsTo(rk, step.name.name) {
          OneOwnerName(rk, name.name, step.name.name);
        }
        assert SameEntry(t.server, u.server, rk);
      }
    }
  }
}
