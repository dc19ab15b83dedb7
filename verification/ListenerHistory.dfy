/** How much of the listener state is a function of the last accepted specifications alone. */
module ListenerHistory {
  import opened Api
  import opened Validation
  import opened RoutePaths
  import opened RouteTable
  import opened ListenerModel
  import opened ListenerIsolation
  import opened ListenerBijection
  import opened ListenerClash

  /** The last accepted specification of each Config since everything was stopped. */
  function LastSpecs(steps: seq<Step>): map<NamespacedName, seq<NotificationSource>> {
    if steps == [] then map[]
    else
      var specs := LastSpecs(steps[..|steps| - 1]);
      match steps[|steps| - 1]
      case Manage(name, sources, _, _, _) => if DistinctSuffixes(sources) then specs[name := sources] else specs
      case StopAll(_) => map[]
  }

  function WantedKeys(env: Env, specs: map<NamespacedName, seq<NotificationSource>>, name: NamespacedName): set<string> {
    if name in specs then Desired(env, specs[name]).Keys else {}
  }

  /** Every listener that an accepted call wants can be created and started. */
  predicate Succeeds(env: Env, step: Step) {
    step.Manage? && DistinctSuffixes(step.sources) ==>
      var desired := Desired(env, step.sources);
      forall key :: key in desired ==> Startable(env, desired[key], key, step.working)
  }

  ghost predicate AllSucceed(env: Env, steps: seq<Step>) {
    forall i :: 0 <= i < |steps| ==> Succeeds(env, steps[i])
  }

  lemma {:induction false} GroupsStop(s: State, groups: seq<Group>, names: set<NamespacedName>, name: NamespacedName)
    requires InRange(s.server) && GroupsCover(s, groups, names)
    ensures Live(StopGroups(s, groups), name) == if name in names then map[] else Live(s, name)
  {
    if groups != [] {
      var init, last := groups[..|groups| - 1], groups[|groups| - 1];
      GroupsStop(s, init, names - {last.name}, name);
      GroupsStop(s, init, names - {last.name}, last.name);
      var before := StopGroups(s, init);
      EnumeratesExactly(last.order, Live(s, last.name).Keys);
      StopsRemove(before, last.name, last.order);
      StopsKeepOthers(before, last.name, last.order, name);
    }
  }

  lemma {:induction false} StopsKeepOthers(s: State, name: NamespacedName, order: seq<string>, other: NamespacedName)
    requires InRange(s.server)
    ensures other != name ==> Live(StopInOrder(s, name, order), other) == Live(s, other)
  {
    if order != [] {
      StopsKeepOthers(s, name, order[..|order| - 1], other);
    }
  }

  lemma StopAllStopsAll(env: Env, s: State, step: Step, name: NamespacedName)
    requires InRange(s.server) && ValidStep(env, s, step) && step.StopAll?
    ensures Live(Exec(env, s, step), name) == map[]
  {
    GroupsStop(s, step.groups, s.listeners.Keys, name);
  }

  /** If every create and start succeeds, the live listeners of each Config after any run are
      exactly those of its last accepted specification. */
  lemma {:induction false} LiveKeysFollowLastSpec(env: Env, steps: seq<Step>, name: NamespacedName)
    requires ValidRun(env, EMPTY_STATE, steps) && AllSucceed(env, steps)
    ensures Live(Run(env, EMPTY_STATE, steps), name).Keys == WantedKeys(env, LastSpecs(steps), name)
  {
    if steps != [] {
      var init, step := steps[..|steps| - 1], steps[|steps| - 1];
      var s := Run(env, EMPTY_STATE, init);
      LiveKeysFollowLastSpec(env, init, name);
      RunsNeverLeak(env, init);
      if step.StopAll? {
        StopAllStopsAll(env, s, step, name);
      } else if DistinctSuffixes(step.sources) {
        assert Succeeds(env, step);
        if step.name == name {
          ManageListenersExact(env, s, step);
        } else {
          ManageTouchesOneConfig(env, s, step);
        }
      }
    }
  }

  predicate ExplicitSuffixes(sources: seq<NotificationSource>) {
    forall i :: 0 <= i < |sources| && IsWebhook(sources[i]) ==> RawSuffix(sources[i]) != ""
  }

  /** A key determines its listener, given an explicit suffix where it is a webhook. */
  lemma KeyDeterminesListener(env: Env, name: NamespacedName, sources: seq<NotificationSource>, key: string,
                              l1: Listener, l2: Listener)
    requires Injective(env.hash) && ExplicitSuffixes(sources)
    requires key in Desired(env, sources)
    requires Keyed(env, name, key, l1) && Keyed(env, name, key, l2)
    ensures l1 == l2
  {
    var i := DesiredHasSource(env, sources, key);
    DesiredKeysMatch(env, sources);
    if IsWebhook(sources[i]) {
      RouteForms(env, name, key, l1, sources[i]);
      RouteForms(env, name, key, l2, sources[i]);
    } else {
      OtherKeyDetermines(env, name, key, l1, sources[i]);
      OtherKeyDetermines(env, name, key, l2, sources[i]);
    }
  }

  lemma OtherKeyDetermines(env: Env, name: NamespacedName, key: string, l: Listener, source: NotificationSource)
    requires Injective(env.hash)
    requires Keyed(env, name, key, l)
    requires !IsWebhook(source) && ListenerKey(env, source) == Some(key)
    ensures l == OtherListener(source.kind, BlockOf(source))
  {
    match l
    case WebhookListener(_, config) =>
      KeyInjective(source.kind, env.hash(PayloadOf(source)), WEBHOOK, key[|WEBHOOK| + 1..]);
    case OtherListener(kind, block) =>
      KeyInjective(kind, env.hash(OtherBlock(block)), source.kind, env.hash(PayloadOf(source)));
      assert OtherBlock(block) == PayloadOf(source);
  }

  ghost predicate SameLive(s: State, t: State) {
    forall name :: Live(s, name) == Live(t, name)
  }

  ghost predicate SameTable(s: State, t: State)
    requires InRange(s.server) && InRange(t.server)
  {
    forall rk :: Lookup(s.server, rk) == Lookup(t.server, rk)
  }

  lemma SameLiveSameEntry(s: State, t: State, rk: string)
    requires Bijective(s) && Bijective(t) && SameLive(s, t)
    requires rk in s.server.routes
    ensures Lookup(s.server, rk) == Lookup(t.server, rk)
  {
    var name, key :| Owns(s, name, key, rk);
    assert Live(s, name) == Live(t, name);
    assert Owns(t, name, key, rk);
  }

  lemma SameLiveSameTable(s: State, t: State)
    requires Bijective(s) && Bijective(t) && SameLive(s, t)
    ensures SameTable(s, t)
  {
    forall rk ensures Lookup(s.server, rk) == Lookup(t.server, rk) {
      if rk in s.server.routes {
        SameLiveSameEntry(s, t, rk);
      }
      if rk in t.server.routes {
        SameLiveSameEntry(t, s, rk);
      }
    }
  }

  ghost predicate GoodRun(env: Env, steps: seq<Step>) {
    && ValidRun(env, EMPTY_STATE, steps)
    && WellNamedSteps(steps)
    && ClashFree(env, steps)
  }

  /** History independence: two runs with the same last specifications, all with explicit
      suffixes, end with the same listeners and the same route table. */
  lemma HistoryIndependence(env: Env, steps1: seq<Step>, steps2: seq<Step>)
    requires Injective(env.hash)
    requires GoodRun(env, steps1) && AllSucceed(env, steps1)
    requires GoodRun(env, steps2) && AllSucceed(env, steps2)
    requires LastSpecs(steps1) == LastSpecs(steps2)
    requires forall name :: name in LastSpecs(steps1) ==> ExplicitSuffixes(LastSpecs(steps1)[name])
    ensures SameLive(Run(env, EMPTY_STATE, steps1), Run(env, EMPTY_STATE, steps2))
    ensures SameTable(Run(env, EMPTY_STATE, steps1), Run(env, EMPTY_STATE, steps2))
  {
    var s, t, specs := Run(env, EMPTY_STATE, steps1), Run(env, EMPTY_STATE, steps2), LastSpecs(steps1);
    RunsNeverLeak(env, steps1);
    RunsNeverLeak(env, steps2);
    RunsStayBijective(env, steps1);
    RunsStayBijective(env, steps2);
    forall name ensures Live(s, name) == Live(t, name) {
      LiveKeysFollowLastSpec(env, steps1, name);
      LiveKeysFollowLastSpec(env, steps2, name);
      assert Live(s, name).Keys == Live(t, name).Keys;
      forall key | key in Live(s, name) ensures Live(s, name)[key] == Live(t, name)[key] {
        KeyDeterminesListener(env, name, specs[name], key, Live(s, name)[key], Live(t, name)[key]);
      }
    }
    SameLiveSameTable(s, t);
  }

  /** The order in which Go visits its maps has no effect on a call without a clash. */
  lemma OrdersDoNotMatter(env: Env, s: State, step1: Step, step2: Step)
    requires Injective(env.hash) && Sound(env, s) && Bijective(s) && AllWellNamed(s)
    requires ValidStep(env, s, step1) && ValidStep(env, s, step2)
    requires step1.Manage? && step2.Manage? && WellNamed(step1.name)
    requires step1.(stops := [], starts := []) == step2.(stops := [], starts := [])
    requires !Clash(env, s, step1.name, step1.sources)
    ensures SameLive(Exec(env, s, step1), Exec(env, s, step2))
    ensures SameTable(Exec(env, s, step1), Exec(env, s, step2))
  {
    if DistinctSuffixes(step1.sources) {
      var t1, t2 := Exec(env, s, step1), Exec(env, s, step2);
      BijectiveIffNoClash(env, s, step1);
      BijectiveIffNoClash(env, s, step2);
      ManageListenersExact(env, s, step1);
      ManageListenersExact(env, s, step2);
      ManageTouchesOneConfig(env, s, step1);
      ManageTouchesOneConfig(env, s, step2);
      SameLiveSameTable(t1, t2);
    }
  }

  /** A live listener that is still wanted is kept as it is. */
  lemma WantedListenerKept(env: Env, s: State, step: Step, key: string)
    requires InRange(s.server) && ValidStep(env, s, step) && step.Manage? && DistinctSuffixes(step.sources)
    requires key in Live(s, step.name) && key in Desired(env, step.sources)
    ensures key in Live(Exec(env, s, step), step.name)
    ensures Live(Exec(env, s, step), step.name)[key] == Live(s, step.name)[key]
  {
    ManageListenersExact(env, s, step);
  }
}
