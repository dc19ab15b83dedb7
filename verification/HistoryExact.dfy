/** Exactly when the route table is a function of the last accepted specifications: if and only if
    every webhook source has an explicit suffix. */
module HistoryExact {
  import opened Api
  import opened Validation
  import opened RoutePaths
  import opened RouteTable
  import opened ListenerModel
  import opened ListenerIsolation
  import opened ListenerBijection
  import opened ListenerClash
  import opened ListenerHistory

  type Specs = map<NamespacedName, seq<NotificationSource>>

  /** An accepted specification whose webhook sources can be started. */
  predicate Servable(env: Env, sources: seq<NotificationSource>) {
    && DistinctSuffixes(sources)
    && forall i :: 0 <= i < |sources| && IsWebhook(sources[i]) ==> Startable(env, sources[i], "", {})
  }

  predicate GoodSpec(env: Env, name: NamespacedName, sources: seq<NotificationSource>) {
    WellNamed(name) && Servable(env, sources) && NoHashSuffix(env, sources)
  }

  ghost predicate GoodSpecs(env: Env, specs: Specs) {
    forall name :: name in specs ==> GoodSpec(env, name, specs[name])
  }

  /** A run without clash or failure that leaves the Configs with those specifications. */
  ghost predicate Ends(env: Env, steps: seq<Step>, specs: Specs) {
    GoodRun(env, steps) && AllSucceed(env, steps) && LastSpecs(steps) == specs
  }

  // Runs that make one more call for each Config.

  lemma ServableSucceeds(env: Env, step: Step)
    requires step.Manage? && Servable(env, step.sources) && step.working == Desired(env, step.sources).Keys
    ensures Succeeds(env, step)
  {
    var desired := Desired(env, step.sources);
    forall key | key in desired ensures Startable(env, desired[key], key, step.working) {
      var i := DesiredHasSource(env, step.sources, key);
    }
  }

  /** The call after a run that gives a Config its next specification. */
  predicate Follows(env: Env, steps: seq<Step>, call: Step, name: NamespacedName, sources: seq<NotificationSource>) {
    && call.Manage? && call.name == name && call.sources == sources
    && ValidStep(env, Run(env, EMPTY_STATE, steps), call)
  }

  lemma Continue(env: Env, steps: seq<Step>, specs: Specs, name: NamespacedName, sources: seq<NotificationSource>)
      returns (call: Step)
    requires Ends(env, steps, specs) && GoodSpec(env, name, sources)
    ensures Follows(env, steps, call, name, sources)
    ensures Ends(env, steps + [call], specs[name := sources])
  {
    call := SomeCall(env, Run(env, EMPTY_STATE, steps), name, sources, Desired(env, sources).Keys);
    ServableSucceeds(env, call);
    var more := steps + [call];
    assert more[..|steps|] == steps;
    assert !Clash(env, Run(env, EMPTY_STATE, steps), name, sources);
  }

  /** Config `name` has that listener under that key. */
  predicate Has(s: State, name: NamespacedName, key: string, l: Listener) {
    key in Live(s, name) && Live(s, name)[key] == l
  }

  lemma ContinueKeeps(env: Env, steps: seq<Step>, call: Step, name: NamespacedName, key: string, l: Listener)
    requires ValidRun(env, EMPTY_STATE, steps) && call.Manage? && DistinctSuffixes(call.sources)
    requires ValidStep(env, Run(env, EMPTY_STATE, steps), call)
    requires Has(Run(env, EMPTY_STATE, steps), name, key, l)
    requires call.name == name ==> key in Desired(env, call.sources)
    ensures Has(Run(env, EMPTY_STATE, steps + [call]), name, key, l)
  {
    var s := Run(env, EMPTY_STATE, steps);
    assert (steps + [call])[..|steps|] == steps;
    if call.name == name {
      WantedListenerKept(env, s, call, key);
    } else {
      RunsNeverLeak(env, steps);
      ManageTouchesOneConfig(env, s, call);
    }
  }

  /** The calls give each Config its specification, one call for each. */
  predicate OneCallEach(calls: seq<Step>, specs: Specs) {
    if calls == [] then specs == map[]
    else
      var last := calls[|calls| - 1];
      && last.Manage? && last.name in specs && last.sources == specs[last.name]
      && OneCallEach(calls[..|calls| - 1], specs - {last.name})
  }

  /** After any run, one more call can be made for each Config of `specs`. */
  lemma {:induction false} ContinueAll(env: Env, steps: seq<Step>, before: Specs, specs: Specs)
      returns (calls: seq<Step>)
    requires Ends(env, steps, before) && GoodSpecs(env, specs)
    ensures Ends(env, steps + calls, before + specs) && OneCallEach(calls, specs)
    decreases |specs|
  {
    if specs == map[] {
      calls := [];
      assert steps + calls == steps && before + specs == before;
    } else {
      var name :| name in specs;
      var rest := specs - {name};
      assert |rest.Keys| < |specs.Keys| by { assert specs.Keys == rest.Keys + {name}; }
      var init := ContinueAll(env, steps, before, rest);
      assert GoodSpec(env, name, specs[name]);
      var call := Continue(env, steps + init, before + rest, name, specs[name]);
      calls := init + [call];
      Appended(steps, init, call, before, specs, name);
      OneCallMore(init, call, specs);
    }
  }

  lemma OneCallMore(init: seq<Step>, call: Step, specs: Specs)
    requires call.Manage? && call.name in specs && call.sources == specs[call.name]
    requires OneCallEach(init, specs - {call.name})
    ensures OneCallEach(init + [call], specs)
  {
    assert (init + [call])[..|init|] == init;
  }

  lemma Overridden(name: NamespacedName, sources: seq<NotificationSource>, specs: Specs)
    requires name in specs
    ensures map[name := sources] + specs == specs
  {
  }

  lemma Appended(steps: seq<Step>, init: seq<Step>, call: Step, before: Specs, specs: Specs, name: NamespacedName)
    requires name in specs
    ensures steps + (init + [call]) == steps + init + [call]
    ensures (before + (specs - {name}))[name := specs[name]] == before + specs
  {
  }

  /** Such calls keep a listener that is still wanted. */
  lemma {:induction false} CallsKeep(env: Env, steps: seq<Step>, calls: seq<Step>, specs: Specs,
                                     name: NamespacedName, key: string, l: Listener)
    requires ValidRun(env, EMPTY_STATE, steps + calls) && OneCallEach(calls, specs) && GoodSpecs(env, specs)
    requires name in specs ==> key in Desired(env, specs[name])
    requires Has(Run(env, EMPTY_STATE, steps), name, key, l)
    ensures Has(Run(env, EMPTY_STATE, steps + calls), name, key, l)
  {
    if calls == [] {
      assert steps + calls == steps;
    } else {
      var init, call := calls[..|calls| - 1], calls[|calls| - 1];
      assert GoodSpec(env, call.name, specs[call.name]);
      assert steps + calls == steps + init + [call];
      assert (steps + init + [call])[..|steps + init|] == steps + init;
      CallsKeep(env, steps, init, specs - {call.name}, name, key, l);
      ContinueKeeps(env, steps + init, call, name, key, l);
    }
  }

  // Runs with explicit suffixes end like a fresh manager.

  lemma {:induction false} LastSpecsGood(env: Env, steps: seq<Step>, name: NamespacedName)
    requires WellNamedSteps(steps) && AllSucceed(env, steps) && name in LastSpecs(steps)
    requires Injective(env.hash)
    ensures WellNamed(name) && Servable(env, LastSpecs(steps)[name])
  {
    var init, step := steps[..|steps| - 1], steps[|steps| - 1];
    if step.Manage? && step.name == name && DistinctSuffixes(step.sources) {
      assert Succeeds(env, step);
      forall i | 0 <= i < |step.sources| && IsWebhook(step.sources[i]) ensures Startable(env, step.sources[i], "", {}) {
        WebhookIsDesired(env, step.sources, i);
      }
    } else {
      LastSpecsGood(env, init, name);
    }
  }

  /** Any run whose last specifications have explicit suffixes ends with the listeners and the
      route table of a fresh manager that is given those specifications only, in one call each. */
  lemma EndsLikeFresh(env: Env, steps: seq<Step>) returns (calls: seq<Step>)
    requires Injective(env.hash) && GoodRun(env, steps) && AllSucceed(env, steps)
    requires forall name :: name in LastSpecs(steps) ==> ExplicitSuffixes(LastSpecs(steps)[name])
    ensures OneCallEach(calls, LastSpecs(steps)) && Ends(env, calls, LastSpecs(steps))
    ensures SameLive(Run(env, EMPTY_STATE, steps), Run(env, EMPTY_STATE, calls))
    ensures SameTable(Run(env, EMPTY_STATE, steps), Run(env, EMPTY_STATE, calls))
  {
    var specs := LastSpecs(steps);
    forall name | name in specs ensures GoodSpec(env, name, specs[name]) {
      LastSpecsGood(env, steps, name);
    }
    calls := ContinueAll(env, [], map[], specs);
    assert [] + calls == calls && map[] + specs == specs;
    HistoryIndependence(env, steps, calls);
  }

  // A suffixless source makes the table depend on history.

  lemma OneWebhook(env: Env, source: NotificationSource)
    requires IsWebhook(source)
    ensures Desired(env, [source]) == map[WebhookKey(env, source.webhook) := source]
    ensures |WebhookKeys(Desired(env, [source]))| == 1
  {
    assert [source][..0] == [];
    assert WebhookKeys(Desired(env, [source])) == {WebhookKey(env, source.webhook)};
  }

  /** The only webhook source of a Config, if it has no suffix, is served under the bare name. */
  lemma AloneGetsBareName(env: Env, name: NamespacedName, source: NotificationSource) returns (steps: seq<Step>)
    requires Injective(env.hash) && WellNamed(name)
    requires IsWebhook(source) && RawSuffix(source) == "" && Startable(env, source, "", {})
    ensures Ends(env, steps, map[name := [source]])
    ensures Has(Run(env, EMPTY_STATE, steps), name, WebhookKey(env, source.webhook),
                WebhookListener(name.name, EffectiveConfig(source.webhook)))
  {
    var call := Continue(env, [], map[], name, [source]);
    steps := [] + [call];
    assert steps[..0] == [] && map[][name := [source]] == map[name := [source]];
    OneWebhook(env, source);
    ManageListenersExact(env, EMPTY_STATE, call);
    WebhookRoutes(env, name.name, EffectiveConfig(source.webhook), source.webhook, 1);
  }

  function Companion(suffix: string): NotificationSource {
    NotificationSource(WEBHOOK, Some(EMPTY_WEBHOOK.(pathSuffix := suffix)), map[])
  }

  /** A second webhook source that clashes with nothing. */
  lemma CompanionFor(env: Env, source: NotificationSource) returns (other: NotificationSource)
    requires IsWebhook(source) && RawSuffix(source) == "" && Startable(env, source, "", {})
    ensures IsWebhook(other) && Servable(env, [source, other]) && NoHashSuffix(env, [source, other])
    ensures RawSuffix(other) != ""
  {
    other := if env.hash(WebhookBlock(source.webhook)) == "a" then Companion("b") else Companion("a");
    var labels := Labels([source, other]);
    assert TrimSpace("") == "" && TrimSpace("a") == "a" && TrimSpace("b") == "b";
    assert labels == [Some(""), Some(RawSuffix(other))];
  }

  /** Beside another webhook source it is served under its hash instead. */
  lemma BesideAnotherGetsHash(env: Env, name: NamespacedName, source: NotificationSource)
      returns (steps: seq<Step>, other: NotificationSource)
    requires Injective(env.hash) && WellNamed(name)
    requires IsWebhook(source) && RawSuffix(source) == "" && Startable(env, source, "", {})
    ensures Ends(env, steps, map[name := [source, other]])
    ensures Has(Run(env, EMPTY_STATE, steps), name, WebhookKey(env, source.webhook),
                WebhookListener(name.name + "/" + env.hash(WebhookBlock(source.webhook)), EffectiveConfig(source.webhook)))
  {
    other := CompanionFor(env, source);
    var sources := [source, other];
    var call := Continue(env, [], map[], name, sources);
    steps := [] + [call];
    assert steps[..0] == [] && map[][name := sources] == map[name := sources];
    var desired := Desired(env, sources);
    WebhookIsDesired(env, sources, 0);
    WebhookIsDesired(env, sources, 1);
    TwoWebhooksCount(desired, WebhookKey(env, source.webhook), WebhookKey(env, other.webhook));
    ManageListenersExact(env, EMPTY_STATE, call);
    WebhookRoutes(env, name.name, EffectiveConfig(source.webhook), source.webhook, |WebhookKeys(desired)|);
  }

  /** Once a suffixless source is served under its hash, nothing is served under the bare name. */
  lemma NothingUnderBareName(env: Env, steps: seq<Step>, specs: Specs, name: NamespacedName, i: nat)
    requires Injective(env.hash) && Ends(env, steps, specs) && name in specs && WellNamed(name)
    requires i < |specs[name]| && IsWebhook(specs[name][i]) && RawSuffix(specs[name][i]) == ""
    requires DistinctSuffixes(specs[name])
    requires var webhook := specs[name][i].webhook;
             Has(Run(env, EMPTY_STATE, steps), name, WebhookKey(env, webhook),
                 WebhookListener(name.name + "/" + env.hash(WebhookBlock(webhook)), EffectiveConfig(webhook)))
    ensures Lookup(Run(env, EMPTY_STATE, steps).server, name.name) == None
  {
    var t := Run(env, EMPTY_STATE, steps);
    RunsNeverLeak(env, steps);
    RunsStayBijective(env, steps);
    LiveKeysFollowLastSpec(env, steps, name);
    forall n, k ensures !Owns(t, n, k, name.name) {
      if Owns(t, n, k, name.name) {
        assert Keyed(env, n, k, t.listeners[n][k]);
        KeyedBelongs(env, n, k, t.listeners[n][k]);
        OneOwnerName(name.name, n.name, name.name);
        NotBareName(env, name, specs[name], i, k, t.listeners[n][k]);
      }
    }
  }

  /** Every other webhook source of the specification has an explicit suffix and so another route. */
  lemma NotBareName(env: Env, name: NamespacedName, sources: seq<NotificationSource>, i: nat, key: string, l: Listener)
    requires Injective(env.hash) && DistinctSuffixes(sources)
    requires i < |sources| && IsWebhook(sources[i]) && RawSuffix(sources[i]) == ""
    requires key in Desired(env, sources) && Keyed(env, name, key, l) && l.WebhookListener?
    requires key == WebhookKey(env, sources[i].webhook)
             ==> l.routeKey == name.name + "/" + env.hash(WebhookBlock(sources[i].webhook))
    ensures l.routeKey != name.name
  {
    SegmentsDiffer(name.name, env.hash(WebhookBlock(sources[i].webhook)), "");
    if key != WebhookKey(env, sources[i].webhook) {
      OwnerIsWebhookSource(env, sources, name, key, l);
      var source := Desired(env, sources)[key];
      DesiredKeysMatch(env, sources);
      WebhookIsDesired(env, sources, i);
      DifferentKeysDifferentSuffixes(env, sources, key, WebhookKey(env, sources[i].webhook));
      RouteForms(env, name, key, l, source);
      SegmentsDiffer(name.name, RawSuffix(source), "");
    }
  }

  /** A run that ends with a listener of an earlier specification that is still wanted. */
  lemma EndsWith(env: Env, init: seq<Step>, sources: seq<NotificationSource>, specs: Specs,
                 name: NamespacedName, key: string, l: Listener)
      returns (steps: seq<Step>)
    requires Ends(env, init, map[name := sources]) && Has(Run(env, EMPTY_STATE, init), name, key, l)
    requires GoodSpecs(env, specs) && name in specs && key in Desired(env, specs[name])
    ensures Ends(env, steps, specs) && Has(Run(env, EMPTY_STATE, steps), name, key, l)
  {
    var calls := ContinueAll(env, init, map[name := sources], specs);
    CallsKeep(env, init, calls, specs, name, key, l);
    steps := init + calls;
    Overridden(name, sources, specs);
  }

  lemma BareNameServed(env: Env, steps: seq<Step>, specs: Specs, name: NamespacedName, key: string, config: WebhookConfig)
    requires Injective(env.hash) && Ends(env, steps, specs)
    requires Has(Run(env, EMPTY_STATE, steps), name, key, WebhookListener(name.name, config))
    ensures Lookup(Run(env, EMPTY_STATE, steps).server, name.name) == Some(config)
  {
    RunsStayBijective(env, steps);
    assert Owns(Run(env, EMPTY_STATE, steps), name, key, name.name);
  }

  /** For any specifications with a suffixless webhook source there are two runs that end with
      them and serve different route tables. */
  lemma HistoryMatters(env: Env, specs: Specs, name: NamespacedName, i: nat) returns (steps1: seq<Step>, steps2: seq<Step>)
    requires Injective(env.hash) && GoodSpecs(env, specs) && name in specs
    requires i < |specs[name]| && IsWebhook(specs[name][i]) && RawSuffix(specs[name][i]) == ""
    ensures Ends(env, steps1, specs) && Ends(env, steps2, specs)
    ensures Lookup(Run(env, EMPTY_STATE, steps1).server, name.name) == Some(EffectiveConfig(specs[name][i].webhook))
    ensures Lookup(Run(env, EMPTY_STATE, steps2).server, name.name) == None
  {
    var source := specs[name][i];
    var key, config := WebhookKey(env, source.webhook), EffectiveConfig(source.webhook);
    assert GoodSpec(env, name, specs[name]);
    WebhookIsDesired(env, specs[name], i);
    var init1 := AloneGetsBareName(env, name, source);
    steps1 := EndsWith(env, init1, [source], specs, name, key, WebhookListener(name.name, config));
    BareNameServed(env, steps1, specs, name, key, config);
    var init2, other := BesideAnotherGetsHash(env, name, source);
    var route := name.name + "/" + env.hash(WebhookBlock(source.webhook));
    steps2 := EndsWith(env, init2, [source, other], specs, name, key, WebhookListener(route, config));
    NothingUnderBareName(env, steps2, specs, name, i);
  }

  /** The route table depends on the last specifications alone. */
  ghost predicate HistoryIndependent(env: Env, specs: Specs) {
    forall steps1, steps2 :: Ends(env, steps1, specs) && Ends(env, steps2, specs)
                             ==> SameTable(Run(env, EMPTY_STATE, steps1), Run(env, EMPTY_STATE, steps2))
  }

  /** It does if and only if every webhook source has an explicit suffix. */
  lemma IndependentIffExplicit(env: Env, specs: Specs)
    requires Injective(env.hash) && GoodSpecs(env, specs)
    ensures HistoryIndependent(env, specs) <==> forall name :: name in specs ==> ExplicitSuffixes(specs[name])
  {
    if forall name :: name in specs ==> ExplicitSuffixes(specs[name]) {
      forall steps1, steps2 | Ends(env, steps1, specs) && Ends(env, steps2, specs)
        ensures SameTable(Run(env, EMPTY_STATE, steps1), Run(env, EMPTY_STATE, steps2))
      {
        HistoryIndependence(env, steps1, steps2);
      }
    } else {
      var name :| name in specs && !ExplicitSuffixes(specs[name]);
      var i :| 0 <= i < |specs[name]| && IsWebhook(specs[name][i]) && RawSuffix(specs[name][i]) == "";
      var steps1, steps2 := HistoryMatters(env, specs, name, i);
      var s, t := Run(env, EMPTY_STATE, steps1), Run(env, EMPTY_STATE, steps2);
      assert Lookup(s.server, name.name) != Lookup(t.server, name.name);
    }
  }
}
