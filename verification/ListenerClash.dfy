/** Exactly which calls to ManageListeners replace a live route, and the invariant over runs
    that avoid them. */
module ListenerClash {
  import opened Api
  import opened Validation
  import opened RoutePaths
  import opened RouteTable
  import opened ListenerModel
  import opened ListenerIsolation
  import opened ListenerBijection

  // The wanted sources by key.

  lemma {:induction false} DesiredHasSource(env: Env, sources: seq<NotificationSource>, key: string) returns (i: nat)
    requires key in Desired(env, sources)
    ensures i < |sources| && sources[i] == Desired(env, sources)[key]
  {
    var last := |sources| - 1;
    if ListenerKey(env, sources[last]) == Some(key) {
      i := last;
    } else {
      i := DesiredHasSource(env, sources[..last], key);
    }
  }

  lemma {:induction false} SourceIsDesired(env: Env, sources: seq<NotificationSource>, i: nat)
    requires i < |sources| && IsSupported(sources[i].kind)
    ensures ListenerKey(env, sources[i]).value in Desired(env, sources)
  {
    var last := |sources| - 1;
    if i < last {
      assert sources[..last][i] == sources[i];
      SourceIsDesired(env, sources[..last], i);
    }
  }

  /** In an accepted specification each webhook source is the wanted source of its key. */
  lemma WebhookIsDesired(env: Env, sources: seq<NotificationSource>, i: nat)
    requires Injective(env.hash) && DistinctSuffixes(sources)
    requires i < |sources| && IsWebhook(sources[i])
    ensures var key := WebhookKey(env, sources[i].webhook);
            key in Desired(env, sources) && Desired(env, sources)[key] == sources[i]
  {
    var key := WebhookKey(env, sources[i].webhook);
    SourceIsDesired(env, sources, i);
    DesiredKeysMatch(env, sources);
    var j := DesiredHasSource(env, sources, key);
    KeyInjective(WEBHOOK, env.hash(WebhookBlock(sources[i].webhook)), sources[j].kind, env.hash(PayloadOf(sources[j])));
    assert WebhookBlock(sources[i].webhook) == PayloadOf(sources[j]);
    if i != j {
      AcceptedRawSuffixesDiffer(sources, i, j);
    }
  }

  lemma DifferentKeysDifferentSuffixes(env: Env, sources: seq<NotificationSource>, k1: string, k2: string)
    requires DistinctSuffixes(sources)
    requires var desired := Desired(env, sources);
             k1 in desired && k2 in desired && IsWebhook(desired[k1]) && IsWebhook(desired[k2])
    requires k1 != k2
    ensures var desired := Desired(env, sources); RawSuffix(desired[k1]) != RawSuffix(desired[k2])
  {
    var i := DesiredHasSource(env, sources, k1);
    var j := DesiredHasSource(env, sources, k2);
    DesiredKeysMatch(env, sources);
    AcceptedRawSuffixesDiffer(sources, i, j);
  }

  // What the two loops do to the listeners of the Config.

  lemma {:induction false} StopsRemove(s: State, name: NamespacedName, order: seq<string>)
    requires InRange(s.server)
    ensures Live(StopInOrder(s, name, order), name) == Live(s, name) - set key | key in order
  {
    if order != [] {
      var init, last := order[..|order| - 1], order[|order| - 1];
      assert order == init + [last];
      StopsRemove(s, name, init);
      assert (set key | key in order) == (set key | key in init) + {last};
    }
  }

  /** After the first loop exactly the wanted live listeners remain, unchanged. */
  lemma StopsRetainWanted(env: Env, s: State, step: Step)
    requires InRange(s.server) && ValidStep(env, s, step) && step.Manage?
    ensures var desired := Desired(env, step.sources);
            Live(AfterStops(s, step), step.name) ==
            map key | key in Live(s, step.name) && key in desired :: Live(s, step.name)[key]
  {
    EnumeratesExactly(step.stops, Unwanted(env, s, step.name, step.sources));
    StopsRemove(WithEntry(s, step.name), step.name, step.stops);
  }

  function ListenerFor(s: State, name: NamespacedName, desired: map<string, NotificationSource>, key: string): Listener
    requires key in desired
  {
    if key in Live(s, name) then Live(s, name)[key]
    else NewListener(name, key, desired[key], |WebhookKeys(desired)|)
  }

  predicate Present(env: Env, s: State, name: NamespacedName, desired: map<string, NotificationSource>,
                    working: set<string>, key: string)
  {
    key in desired && (key in Live(s, name) || Startable(env, desired[key], key, working))
  }

  /** The listeners that a Config has once the keys of `keys` were visited. */
  function Started(env: Env, s: State, name: NamespacedName, desired: map<string, NotificationSource>,
                   working: set<string>, keys: set<string>): map<string, Listener>
  {
    map key | key in desired && Present(env, s, name, desired, working, key)
              && (key in Live(s, name) || key in keys)
            :: ListenerFor(s, name, desired, key)
  }

  lemma StartedGrows(env: Env, s: State, t: State, name: NamespacedName, desired: map<string, NotificationSource>,
                     working: set<string>, keys: set<string>, key: string)
    requires InRange(t.server)
    requires Live(t, name) == Started(env, s, name, desired, working, keys)
    ensures Live(StartOne(env, t, name, desired, working, key), name) ==
            Started(env, s, name, desired, working, keys + {key})
  {
  }

  /** After starting the keys of `order`, the Config has its old listeners and those it could start. */
  lemma {:induction false} StartsAdd(env: Env, s: State, name: NamespacedName,
                                     desired: map<string, NotificationSource>,
                                     working: set<string>, order: seq<string>)
    requires InRange(s.server)
    requires forall key :: key in Live(s, name) ==> key in desired
    ensures Live(StartInOrder(env, s, name, desired, working, order), name) ==
            Started(env, s, name, desired, working, set key | key in order)
  {
    if order != [] {
      var init, last := order[..|order| - 1], order[|order| - 1];
      assert order == init + [last];
      assert (set key | key in order) == (set key | key in init) + {last};
      StartsAdd(env, s, name, desired, working, init);
      StartedGrows(env, s, StartInOrder(env, s, name, desired, working, init), name, desired, working,
                   (set key | key in init), last);
    }
  }

  /** The listeners of the Config after an accepted call, whatever the orders. */
  lemma ManageListenersExact(env: Env, s: State, step: Step)
    requires InRange(s.server) && ValidStep(env, s, step) && step.Manage? && DistinctSuffixes(step.sources)
    ensures var desired := Desired(env, step.sources);
            Live(Exec(env, s, step), step.name) ==
            map key | key in desired && Present(env, s, step.name, desired, step.working, key)
                    :: ListenerFor(s, step.name, desired, key)
  {
    var desired := Desired(env, step.sources);
    var s1 := AfterStops(s, step);
    StopsRetainWanted(env, s, step);
    EnumeratesExactly(step.starts, desired.Keys);
    StartsAdd(env, s1, step.name, desired, step.working, step.starts);
    assert (set key | key in step.starts) == desired.Keys;
    AllStarted(env, s, s1, step.name, desired, step.working);
  }

  lemma AllStarted(env: Env, s: State, s1: State, name: NamespacedName, desired: map<string, NotificationSource>,
                   working: set<string>)
    requires Live(s1, name) == map key | key in Live(s, name) && key in desired :: Live(s, name)[key]
    ensures Started(env, s1, name, desired, working, desired.Keys) ==
            map key | key in desired && Present(env, s, name, desired, working, key)
                    :: ListenerFor(s, name, desired, key)
  {
  }

  // Which calls replace a route.

  /** Source `i` spells out as its suffix the hash that source `j`, which has no suffix, has or
      would get as its route; a source that is already served under the bare name keeps it. */
  predicate ClashAt(env: Env, s: State, name: NamespacedName, sources: seq<NotificationSource>, i: int, j: int)
    requires 0 <= i < |sources| && 0 <= j < |sources|
  {
    && env.hasServer
    && IsWebhook(sources[i]) && IsWebhook(sources[j])
    && RawSuffix(sources[j]) == ""
    && RawSuffix(sources[i]) != ""
    && RawSuffix(sources[i]) == env.hash(WebhookBlock(sources[j].webhook))
    && var key := WebhookKey(env, sources[j].webhook);
       if key in Live(s, name) then Live(s, name)[key].WebhookListener? && Live(s, name)[key].routeKey != name.name
       else Startable(env, sources[j], key, {})
  }

  predicate Clash(env: Env, s: State, name: NamespacedName, sources: seq<NotificationSource>) {
    exists i, j :: 0 <= i < |sources| && 0 <= j < |sources| && ClashAt(env, s, name, sources, i, j)
  }

  lemma RouteForms(env: Env, name: NamespacedName, key: string, l: Listener, source: NotificationSource)
    requires Injective(env.hash)
    requires Keyed(env, name, key, l)
    requires IsWebhook(source) && ListenerKey(env, source) == Some(key)
    ensures l.WebhookListener? && l.config == EffectiveConfig(source.webhook)
    ensures RawSuffix(source) != "" ==> l.routeKey == name.name + "/" + RawSuffix(source)
    ensures RawSuffix(source) == "" ==>
              || l.routeKey == name.name
              || l.routeKey == name.name + "/" + env.hash(WebhookBlock(source.webhook))
  {
    LiveUnderWebhookKey(env, name, key, l, source);
    assert key == WebhookKey(env, source.webhook);
    WebhookRoutes(env, name.name, l.config, source.webhook, 1);
    WebhookRoutes(env, name.name, l.config, source.webhook, 2);
  }

  lemma SegmentsDiffer(name: string, a: string, b: string)
    ensures name + "/" + a == name + "/" + b <==> a == b
    ensures name + "/" + a != name
  {
    assert (name + "/" + a)[|name| + 1..] == a;
    assert (name + "/" + b)[|name| + 1..] == b;
    assert |name + "/" + a| > |name|;
  }

  lemma ListenerForForms(env: Env, s: State, name: NamespacedName, sources: seq<NotificationSource>, key: string)
    requires Injective(env.hash) && Sound(env, s)
    requires var desired := Desired(env, sources); key in desired && IsWebhook(desired[key])
    ensures var source, l := Desired(env, sources)[key], ListenerFor(s, name, Desired(env, sources), key);
            && Keyed(env, name, key, l)
            && l.WebhookListener? && l.config == EffectiveConfig(source.webhook)
            && (RawSuffix(source) != "" ==> l.routeKey == name.name + "/" + RawSuffix(source))
            && (RawSuffix(source) == "" ==>
                  || l.routeKey == name.name
                  || l.routeKey == name.name + "/" + env.hash(WebhookBlock(source.webhook)))
  {
    var desired := Desired(env, sources);
    DesiredKeysMatch(env, sources);
    NewListenerKeyed(env, name, key, desired[key], |WebhookKeys(desired)|);
    RouteForms(env, name, key, ListenerFor(s, name, desired, key), desired[key]);
  }

  /** Without a clash, a suffixless source and an explicit one never get the same route. */
  lemma SuffixlessRouteDiffers(env: Env, s: State, name: NamespacedName, sources: seq<NotificationSource>,
                               working: set<string>, kj: string, ki: string)
    requires Injective(env.hash) && Sound(env, s) && DistinctSuffixes(sources)
    requires !Clash(env, s, name, sources)
    requires var desired := Desired(env, sources);
             && Present(env, s, name, desired, working, ki) && IsWebhook(desired[ki]) && RawSuffix(desired[ki]) != ""
             && Present(env, s, name, desired, working, kj) && IsWebhook(desired[kj]) && RawSuffix(desired[kj]) == ""
    requires ki in Live(s, name) ==> kj !in Live(s, name)
    ensures var desired := Desired(env, sources);
            && ListenerFor(s, name, desired, ki).WebhookListener? && ListenerFor(s, name, desired, kj).WebhookListener?
            && ListenerFor(s, name, desired, ki).routeKey != ListenerFor(s, name, desired, kj).routeKey
  {
    var desired := Desired(env, sources);
    var source := desired[kj];
    ListenerForForms(env, s, name, sources, ki);
    ListenerForForms(env, s, name, sources, kj);
    SegmentsDiffer(name.name, RawSuffix(desired[ki]), env.hash(WebhookBlock(source.webhook)));
    var i := DesiredHasSource(env, sources, ki);
    var j := DesiredHasSource(env, sources, kj);
    DesiredKeysMatch(env, sources);
    assert !ClashAt(env, s, name, sources, i, j);
    assert kj == WebhookKey(env, source.webhook);
  }

  lemma PresentRoutesDiffer(env: Env, s: State, name: NamespacedName, sources: seq<NotificationSource>,
                            working: set<string>, k1: string, k2: string)
    requires Injective(env.hash) && Sound(env, s) && DistinctSuffixes(sources)
    requires !Clash(env, s, name, sources)
    requires var desired := Desired(env, sources);
             && Present(env, s, name, desired, working, k1) && IsWebhook(desired[k1])
             && Present(env, s, name, desired, working, k2) && IsWebhook(desired[k2])
    requires k1 != k2 && k1 !in Live(s, name)
    ensures var desired := Desired(env, sources);
            && ListenerFor(s, name, desired, k1).WebhookListener? && ListenerFor(s, name, desired, k2).WebhookListener?
            && ListenerFor(s, name, desired, k1).routeKey != ListenerFor(s, name, desired, k2).routeKey
  {
    var desired := Desired(env, sources);
    DifferentKeysDifferentSuffixes(env, sources, k1, k2);
    if RawSuffix(desired[k1]) == "" {
      SuffixlessRouteDiffers(env, s, name, sources, working, k1, k2);
    } else if RawSuffix(desired[k2]) == "" {
      SuffixlessRouteDiffers(env, s, name, sources, working, k2, k1);
    } else {
      ListenerForForms(env, s, name, sources, k1);
      ListenerForForms(env, s, name, sources, k2);
      SegmentsDiffer(name.name, RawSuffix(desired[k1]), RawSuffix(desired[k2]));
    }
  }

  ghost predicate AllWellNamed(s: State) {
    forall name :: name in s.listeners ==> WellNamed(name)
  }

  /** While the listeners are being started, the next route is still free. */
  lemma NextRouteIsFree(env: Env, s: State, t: State, name: NamespacedName, sources: seq<NotificationSource>,
                        working: set<string>, key: string)
    requires Injective(env.hash) && Sound(env, s) && DistinctSuffixes(sources) && WellNamed(name)
    requires !Clash(env, s, name, sources)
    requires var desired := Desired(env, sources);
             && key in desired && IsWebhook(desired[key]) && Startable(env, desired[key], key, working)
             && (forall k :: k in Live(t, name) ==>
                   Present(env, s, name, desired, working, k) && Live(t, name)[k] == ListenerFor(s, name, desired, k))
    requires key !in Live(s, name) && key !in Live(t, name)
    requires Sound(env, t) && Bijective(t) && AllWellNamed(t)
    ensures ListenerFor(s, name, Desired(env, sources), key).routeKey !in t.server.routes
  {
    var desired := Desired(env, sources);
    ListenerForForms(env, s, name, sources, key);
    var l := ListenerFor(s, name, desired, key);
    KeyedBelongs(env, name, key, l);
    if l.routeKey in t.server.routes {
      var n, k :| Owns(t, n, k, l.routeKey);
      assert Keyed(env, n, k, t.listeners[n][k]);
      KeyedBelongs(env, n, k, t.listeners[n][k]);
      OneOwnerName(l.routeKey, n.name, name.name);
      assert n == name;
      OwnerIsWebhookSource(env, sources, name, k, t.listeners[n][k]);
      PresentRoutesDiffer(env, s, name, sources, working, key, k);
    }
  }

  lemma OwnerIsWebhookSource(env: Env, sources: seq<NotificationSource>, name: NamespacedName, key: string, l: Listener)
    requires key in Desired(env, sources)
    requires Keyed(env, name, key, l) && l.WebhookListener?
    ensures IsWebhook(Desired(env, sources)[key])
  {
    var source := Desired(env, sources)[key];
    DesiredKeysMatch(env, sources);
    KeyInjective(source.kind, env.hash(PayloadOf(source)), WEBHOOK, key[|KEY_PREFIX|..]);
  }

  lemma {:induction false} StartsNeverReplace(env: Env, s: State, name: NamespacedName,
                                              sources: seq<NotificationSource>,
                                              working: set<string>, order: seq<string>)
    requires Injective(env.hash) && Sound(env, s) && Bijective(s) && AllWellNamed(s) && WellNamed(name)
    requires DistinctSuffixes(sources) && !Clash(env, s, name, sources)
    requires forall key :: key in Live(s, name) ==> key in Desired(env, sources)
    ensures StartInOrder(env, s, name, Desired(env, sources), working, order).server.replacements
            == s.server.replacements
  {
    if order != [] {
      var desired := Desired(env, sources);
      var init, key := order[..|order| - 1], order[|order| - 1];
      var t := StartInOrder(env, s, name, desired, working, init);
      StartsNeverReplace(env, s, name, sources, working, init);
      DesiredKeysMatch(env, sources);
      StartInOrderSound(env, s, name, desired, working, init);
      StartInOrderBijective(env, s, name, desired, working, init);
      StartsAdd(env, s, name, desired, working, init);
      if key in desired && key !in Live(t, name) && Startable(env, desired[key], key, working) && IsWebhook(desired[key]) {
        NextRouteIsFree(env, s, t, name, sources, working, key);
      }
    }
  }

  // The exact result for one call.

  lemma {:induction false} StopsKeepCount(s: State, name: NamespacedName, order: seq<string>)
    requires InRange(s.server)
    ensures StopInOrder(s, name, order).server.replacements == s.server.replacements
    ensures name in s.listeners ==> StopInOrder(s, name, order).listeners.Keys == s.listeners.Keys
  {
    if order != [] {
      StopsKeepCount(s, name, order[..|order| - 1]);
    }
  }

  lemma {:induction false} GroupsKeepCount(s: State, groups: seq<Group>, names: set<NamespacedName>)
    requires InRange(s.server)
    requires GroupsCover(s, groups, names) && names <= s.listeners.Keys
    ensures StopGroups(s, groups).server.replacements == s.server.replacements
    ensures StopGroups(s, groups).listeners.Keys == s.listeners.Keys
  {
    if groups != [] {
      var init, last := groups[..|groups| - 1], groups[|groups| - 1];
      GroupsKeepCount(s, init, names - {last.name});
      StopsKeepCount(StopGroups(s, init), last.name, last.order);
    }
  }

  lemma {:induction false} StartsCountUp(env: Env, s: State, name: NamespacedName,
                                         desired: map<string, NotificationSource>,
                                         working: set<string>, order: seq<string>)
    requires InRange(s.server)
    ensures StartInOrder(env, s, name, desired, working, order).server.replacements >= s.server.replacements
  {
    if order != [] {
      StartsCountUp(env, s, name, desired, working, order[..|order| - 1]);
    }
  }

  lemma EntryEditsBijective(s: State, name: NamespacedName)
    requires InRange(s.server)
    ensures Bijective(s) <==> Bijective(WithEntry(s, name))
    ensures Bijective(s) <==> Bijective(DropIfEmpty(s, name))
  {
    var t, u := WithEntry(s, name), DropIfEmpty(s, name);
    assert forall n, k, rk :: Owns(s, n, k, rk) <==> Owns(t, n, k, rk);
    assert forall n, k, rk :: Owns(s, n, k, rk) <==> Owns(u, n, k, rk);
  }

  /** What holds between the two loops. */
  lemma AfterStopsReady(env: Env, s: State, step: Step)
    requires Sound(env, s) && Bijective(s) && AllWellNamed(s)
    requires ValidStep(env, s, step) && step.Manage? && WellNamed(step.name)
    ensures var s1 := AfterStops(s, step);
            && Sound(env, s1) && Bijective(s1) && AllWellNamed(s1)
            && s1.server.replacements == s.server.replacements
  {
    AfterStopsSound(env, s, step);
    EntryEdits(env, s, step.name);
    EntryEditsBijective(s, step.name);
    StopInOrderBijective(env, WithEntry(s, step.name), step.name, step.stops);
    StopsKeepCount(WithEntry(s, step.name), step.name, step.stops);
  }

  lemma ClashSurvivesStops(env: Env, s: State, step: Step)
    requires Injective(env.hash) && Sound(env, s)
    requires ValidStep(env, s, step) && step.Manage? && DistinctSuffixes(step.sources)
    ensures Clash(env, s, step.name, step.sources) <==> Clash(env, AfterStops(s, step), step.name, step.sources)
  {
    var s1, sources := AfterStops(s, step), step.sources;
    StopsRetainWanted(env, s, step);
    forall i, j | 0 <= i < |sources| && 0 <= j < |sources|
      ensures ClashAt(env, s, step.name, sources, i, j) <==> ClashAt(env, s1, step.name, sources, i, j)
    {
      if IsWebhook(sources[j]) {
        WebhookIsDesired(env, sources, j);
      }
    }
  }

  /** A clash leaves two live listeners with one route. */
  lemma ClashSharesRoute(env: Env, s: State, step: Step, i: nat, j: nat)
    requires Injective(env.hash) && Sound(env, s)
    requires ValidStep(env, s, step) && step.Manage? && DistinctSuffixes(step.sources)
    requires i < |step.sources| && j < |step.sources| && ClashAt(env, s, step.name, step.sources, i, j)
    ensures !OwnersUnique(Exec(env, s, step))
  {
    var name, sources, desired := step.name, step.sources, Desired(env, step.sources);
    var t := Exec(env, s, step);
    var ki, kj := WebhookKey(env, sources[i].webhook), WebhookKey(env, sources[j].webhook);
    WebhookIsDesired(env, sources, i);
    WebhookIsDesired(env, sources, j);
    ManageListenersExact(env, s, step);
    assert ki in Live(t, name) && kj in Live(t, name);
    ListenerForForms(env, s, name, sources, ki);
    ListenerForForms(env, s, name, sources, kj);
    var rk := name.name + "/" + RawSuffix(sources[i]);
    TwoWebhooksCount(desired, ki, kj);
    WebhookRoutes(env, name.name, EffectiveConfig(sources[j].webhook), sources[j].webhook, |WebhookKeys(desired)|);
    assert Owns(t, name, ki, rk);
    assert Owns(t, name, kj, rk);
  }

  lemma TwoWebhooksCount(desired: map<string, NotificationSource>, k1: string, k2: string)
    requires k1 in desired && k2 in desired && IsWebhook(desired[k1]) && IsWebhook(desired[k2]) && k1 != k2
    ensures |WebhookKeys(desired)| >= 2
  {
    var rest := WebhookKeys(desired) - {k1};
    assert k2 in rest;
    assert |WebhookKeys(desired)| == |rest| + 1;
    assert rest == {k2} + (rest - {k2});
  }

  /** An accepted call keeps the routes and the live webhook listeners in one-to-one
      correspondence, and leaves Register's replace branch untaken, exactly when it has no clash. */
  lemma BijectiveIffNoClash(env: Env, s: State, step: Step)
    requires Injective(env.hash) && Sound(env, s) && Bijective(s) && AllWellNamed(s)
    requires ValidStep(env, s, step) && step.Manage? && WellNamed(step.name) && DistinctSuffixes(step.sources)
    ensures var t := Exec(env, s, step);
            && (Bijective(t) <==> !Clash(env, s, step.name, step.sources))
            && (t.server.replacements == s.server.replacements <==> !Clash(env, s, step.name, step.sources))
            && t.server.replacements >= s.server.replacements
            && AllWellNamed(t)
  {
    var name, desired := step.name, Desired(env, step.sources);
    var s1 := AfterStops(s, step);
    var s2 := StartInOrder(env, s1, name, desired, step.working, step.starts);
    AfterStopsReady(env, s, step);
    ClashSurvivesStops(env, s, step);
    StopsRetainWanted(env, s, step);
    DesiredKeysMatch(env, step.sources);
    StartInOrderBijective(env, s1, name, desired, step.working, step.starts);
    EntryEditsBijective(s2, name);
    ManageTouchesOneConfig(env, s, step);
    if Clash(env, s, name, step.sources) {
      var i, j :| 0 <= i < |step.sources| && 0 <= j < |step.sources| && ClashAt(env, s, name, step.sources, i, j);
      ClashSharesRoute(env, s, step, i, j);
    } else {
      StartsNeverReplace(env, s1, name, step.sources, step.working, step.starts);
    }
  }

  // Runs.

  ghost predicate WellNamedSteps(steps: seq<Step>) {
    forall i :: 0 <= i < |steps| && steps[i].Manage? ==> WellNamed(steps[i].name)
  }

  /** No accepted call of the run clashes in the state it meets. */
  ghost predicate ClashFree(env: Env, steps: seq<Step>) {
    steps == [] ||
    (var init, step := steps[..|steps| - 1], steps[|steps| - 1];
     && ClashFree(env, init)
     && (step.Manage? && DistinctSuffixes(step.sources)
         ==> !Clash(env, Run(env, EMPTY_STATE, init), step.name, step.sources)))
  }

  lemma StopAllBijective(env: Env, s: State, step: Step)
    requires Sound(env, s) && Bijective(s) && AllWellNamed(s)
    requires ValidStep(env, s, step) && step.StopAll?
    ensures var t := Exec(env, s, step);
            Bijective(t) && AllWellNamed(t) && t.server.replacements == s.server.replacements
  {
    StopGroupsBijective(env, s, step.groups);
    GroupsKeepCount(s, step.groups, s.listeners.Keys);
  }

  lemma CountNeverDrops(env: Env, s: State, step: Step)
    requires InRange(s.server) && ValidStep(env, s, step)
    ensures Exec(env, s, step).server.replacements >= s.server.replacements
  {
    match step
    case Manage(name, sources, working, stops, starts) =>
      StopsKeepCount(WithEntry(s, name), name, stops);
      StartsCountUp(env, AfterStops(s, step), name, Desired(env, sources), working, starts);
    case StopAll(groups) =>
      GroupsKeepCount(s, groups, s.listeners.Keys);
  }

  /** In every state of every run, in any map order: the replace branch of Register has never
      been taken exactly when no call clashed, and then routes and live webhook listeners of all
      Configs correspond one to one. */
  lemma {:induction false} RunsStayBijective(env: Env, steps: seq<Step>)
    requires Injective(env.hash) && ValidRun(env, EMPTY_STATE, steps) && WellNamedSteps(steps)
    ensures Run(env, EMPTY_STATE, steps).server.replacements == 0 <==> ClashFree(env, steps)
    ensures ClashFree(env, steps) ==> Bijective(Run(env, EMPTY_STATE, steps)) && AllWellNamed(Run(env, EMPTY_STATE, steps))
  {
    if steps != [] {
      var init, step := steps[..|steps| - 1], steps[|steps| - 1];
      var s := Run(env, EMPTY_STATE, init);
      RunsStayBijective(env, init);
      RunsNeverLeak(env, init);
      CountNeverDrops(env, s, step);
      if ClashFree(env, init) {
        if step.StopAll? {
          StopAllBijective(env, s, step);
        } else if DistinctSuffixes(step.sources) {
          BijectiveIffNoClash(env, s, step);
        }
      }
    }
  }

  /** A condition on one specification that rules out a clash in any state: no suffix spells
      the hash of a source without one. */
  predicate NoHashSuffix(env: Env, sources: seq<NotificationSource>) {
    forall i, j :: 0 <= i < |sources| && 0 <= j < |sources| && IsWebhook(sources[i]) && IsWebhook(sources[j])
                   && RawSuffix(sources[i]) != "" && RawSuffix(sources[j]) == ""
                   ==> RawSuffix(sources[i]) != env.hash(WebhookBlock(sources[j].webhook))
  }

  lemma {:induction false} NoHashSuffixIsClashFree(env: Env, steps: seq<Step>)
    requires forall i :: 0 <= i < |steps| && steps[i].Manage? ==> NoHashSuffix(env, steps[i].sources)
    ensures ClashFree(env, steps)
  {
    if steps != [] {
      NoHashSuffixIsClashFree(env, steps[..|steps| - 1]);
      assert steps[|steps| - 1].Manage? ==> NoHashSuffix(env, steps[|steps| - 1].sources);
    }
  }

  /** The clash is real: on a fresh manager, a source without a suffix next to one whose
      suffix is the hash of the first is accepted, and one route replaces the other. */
  lemma HashAsSuffixReplaces(env: Env, name: NamespacedName, step: Step)
    requires Injective(env.hash) && env.hasServer && WellNamed(name)
    requires TrimSpace(env.hash(WebhookBlock(Some(EMPTY_WEBHOOK)))) != ""
    requires var hash := env.hash(WebhookBlock(Some(EMPTY_WEBHOOK)));
             && step.Manage? && step.name == name
             && step.sources == [NotificationSource(WEBHOOK, Some(EMPTY_WEBHOOK), map[]),
                                 NotificationSource(WEBHOOK, Some(EMPTY_WEBHOOK.(pathSuffix := hash)), map[])]
    requires ValidStep(env, EMPTY_STATE, step)
    ensures DistinctSuffixes(step.sources)
    ensures !Bijective(Exec(env, EMPTY_STATE, step))
    ensures Exec(env, EMPTY_STATE, step).server.replacements > 0
  {
    assert TrimSpace("") == "";
    assert ClashAt(env, EMPTY_STATE, name, step.sources, 1, 0);
    BijectiveIffNoClash(env, EMPTY_STATE, step);
  }
}
