/** The listener manager as it runs: loops over maps in arbitrary order that update the
    listener map and, through the webhook listeners, the shared server. */
module ListenerManager {
  import opened Api
  import opened Validation
  import opened RoutePaths
  import opened RouteTable
  import opened ListenerModel

  lemma AppendKeepsEnumeration<T>(order: seq<T>, all: set<T>, x: T)
    requires Enumerates(order, all) && x !in all
    ensures Enumerates(order + [x], all + {x})
  {
    assert (order + [x])[..|order|] == order;
    assert all + {x} - {x} == all;
  }

  lemma StopAppended(s: State, name: NamespacedName, order: seq<string>, key: string)
    requires InRange(s.server)
    ensures StopInOrder(s, name, order + [key]) == StopOne(StopInOrder(s, name, order), name, key)
  {
    assert (order + [key])[..|order|] == order;
  }

  lemma GroupAppended(s: State, groups: seq<Group>, names: set<NamespacedName>, group: Group)
    requires InRange(s.server)
    requires GroupsCover(s, groups, names) && group.name !in names
    requires Enumerates(group.order, Live(s, group.name).Keys)
    ensures StopGroups(s, groups + [group]) == StopInOrder(StopGroups(s, groups), group.name, group.order)
    ensures GroupsCover(s, groups + [group], names + {group.name})
  {
    assert (groups + [group])[..|groups|] == groups;
    assert names + {group.name} - {group.name} == names;
  }

  lemma StartAppended(env: Env, s: State, name: NamespacedName, desired: map<string, NotificationSource>,
                      working: set<string>, order: seq<string>, key: string)
    requires InRange(s.server)
    ensures StartInOrder(env, s, name, desired, working, order + [key])
            == StartOne(env, StartInOrder(env, s, name, desired, working, order), name, desired, working, key)
  {
    assert (order + [key])[..|order|] == order;
  }

  class Manager {
    const env: Env
    const server: WebhookServer
    var listeners: map<NamespacedName, map<string, Listener>>

    ghost predicate Valid()
      reads this, server, server.Repr
    {
      server.Valid() && this !in server.Repr
    }

    ghost function Model(): (s: State)
      requires Valid()
      reads this, server, server.Repr
      ensures InRange(s.server)
    {
      State(listeners, server.view)
    }

    constructor (env: Env, server: WebhookServer)
      requires server.Valid()
      ensures Valid() && this.env == env && this.server == server && Model() == State(map[], server.view)
    {
      this.env, this.server := env, server;
      listeners := map[];
    }

    method ManageListeners(name: NamespacedName, sources: seq<NotificationSource>, working: set<string>)
      returns (duplicates: seq<Duplicate>, ghost step: Step)
      requires Valid()
      modifies this, server.Repr
      ensures Valid() && fresh(server.Repr - old(server.Repr))
      ensures duplicates == [] <==> DistinctSuffixes(sources)
      ensures step.Manage? && step.name == name && step.sources == sources && step.working == working
      ensures Model() == Exec(env, old(Model()), step)
      ensures duplicates == [] ==> ValidStep(env, old(Model()), step)
      ensures duplicates != [] ==> Model() == old(Model())
    {
      duplicates := ValidateUniqueWebhookPathSuffixes(sources);
      if duplicates == [] {
        step := Reconcile(name, sources, working);
      } else {
        step := Manage(name, sources, working, [], []);
      }
    }

    method Reconcile(name: NamespacedName, sources: seq<NotificationSource>, working: set<string>)
      returns (ghost step: Step)
      requires Valid() && DistinctSuffixes(sources)
      modifies this, server.Repr
      ensures Valid() && fresh(server.Repr - old(server.Repr))
      ensures step.Manage? && step.name == name && step.sources == sources && step.working == working
      ensures ValidStep(env, old(Model()), step)
      ensures Model() == Exec(env, old(Model()), step)
    {
      Enter(name);
      var desired := Collect(sources);
      var _, stops := StopExcept(name, desired.Keys, {});
      var count := CountWebhooks(desired);
      ghost var starts := StartMissing(name, desired, count, working);
      Leave(name);
      step := Manage(name, sources, working, stops, starts);
    }

    method Enter(name: NamespacedName)
      requires Valid()
      modifies this
      ensures Valid() && Model() == WithEntry(old(Model()), name)
    {
      if name !in listeners {
        listeners := listeners[name := map[]];
      }
      assert listeners == old(listeners)[name := Live(old(Model()), name)];
    }

    method Leave(name: NamespacedName)
      requires Valid()
      modifies this
      ensures Valid() && Model() == DropIfEmpty(old(Model()), name)
    {
      if name in listeners && |listeners[name]| == 0 {
        listeners := listeners - {name};
      }
      assert name !in old(listeners) ==> old(listeners) - {name} == old(listeners);
    }

    method Collect(sources: seq<NotificationSource>) returns (desired: map<string, NotificationSource>)
      ensures desired == Desired(env, sources)
    {
      desired := map[];
      for i := 0 to |sources|
        invariant desired == Desired(env, sources[..i])
      {
        assert sources[..i + 1][..i] == sources[..i];
        var key := ListenerKey(env, sources[i]);
        if key.Some? {
          desired := desired[key.value := sources[i]];
        }
      }
      assert sources[..|sources|] == sources;
    }

    method CountWebhooks(desired: map<string, NotificationSource>) returns (count: nat)
      ensures count == |WebhookKeys(desired)|
    {
      count := 0;
      var todo := desired.Keys;
      ghost var counted: set<string> := {};
      while todo != {}
        invariant todo <= desired.Keys
        invariant counted == WebhookKeys(desired) - todo
        invariant count == |counted|
        decreases |todo|
      {
        var key :| key in todo;
        todo := todo - {key};
        if IsWebhook(desired[key]) {
          count := count + 1;
          counted := counted + {key};
        }
      }
      assert counted == WebhookKeys(desired);
    }

    /** Stops the listeners of a Config whose keys are not in `wanted`, in arbitrary order.
        `failing` holds the listeners whose Stop reports an error; webhook listeners never do. */
    method StopExcept(name: NamespacedName, wanted: set<string>, failing: set<(NamespacedName, string)>)
      returns (errors: set<(NamespacedName, string)>, ghost stops: seq<string>)
      requires Valid() && name in listeners
      modifies this, server.Repr
      ensures Valid() && server.Repr == old(server.Repr)
      ensures Enumerates(stops, old(listeners)[name].Keys - wanted)
      ensures Model() == StopInOrder(old(Model()), name, stops)
      ensures OthersKept(old(listeners), listeners, name)
      ensures errors == Failures(old(listeners)[name], old(listeners)[name].Keys - wanted, name, failing)
    {
      stops, errors := [], {};
      ghost var before := Model();
      ghost var job := StopJob(name, before.listeners, wanted, failing);
      ghost var stopped: set<string> := {};
      var todo := listeners[name].Keys;
      while todo != {}
        invariant Valid() && server.Repr == old(server.Repr)
        invariant name in listeners && todo <= listeners[name].Keys
        invariant job.Progress(listeners, todo, stopped, errors)
        invariant Enumerates(stops, stopped)
        invariant Model() == StopInOrder(before, name, stops)
        decreases |todo|
      {
        var key :| key in todo;
        job.Visit(listeners, todo, stopped, errors, key);
        todo := todo - {key};
        if key !in wanted {
          AppendKeepsEnumeration(stops, stopped, key);
          var failed := if listeners[name][key].OtherListener? && (name, key) in failing then {(name, key)} else {};
          Stop(name, key, before, stops);
          errors := errors + failed;
          stops := stops + [key];
          stopped := stopped + {key};
        }
      }
      job.Finish(listeners, stopped, errors);
    }

    /** Stops one listener; `order` holds those already stopped since `before`. */
    method Stop(name: NamespacedName, key: string, ghost before: State, ghost order: seq<string>)
      requires Valid() && name in listeners && key in listeners[name]
      requires InRange(before.server) && Model() == StopInOrder(before, name, order)
      modifies this, server.Repr
      ensures Valid() && server.Repr == old(server.Repr)
      ensures Model() == StopInOrder(before, name, order + [key])
      ensures listeners == old(listeners)[name := old(listeners)[name] - {key}]
    {
      var listener := listeners[name][key];
      if listener.WebhookListener? {
        server.Unregister(listener.routeKey);
      }
      listeners := listeners[name := listeners[name] - {key}];
      StopAppended(before, name, order, key);
    }

    method StartMissing(name: NamespacedName, desired: map<string, NotificationSource>, count: nat, working: set<string>)
      returns (ghost starts: seq<string>)
      requires Valid() && count == |WebhookKeys(desired)|
      modifies this, server.Repr
      ensures Valid() && fresh(server.Repr - old(server.Repr))
      ensures Enumerates(starts, desired.Keys)
      ensures Model() == StartInOrder(env, old(Model()), name, desired, working, starts)
    {
      starts := [];
      ghost var before := Model();
      ghost var visited: set<string> := {};
      var todo := desired.Keys;
      while todo != {}
        invariant Valid() && fresh(server.Repr - old(server.Repr))
        invariant todo <= desired.Keys && visited == desired.Keys - todo
        invariant Enumerates(starts, visited)
        invariant Model() == StartInOrder(env, before, name, desired, working, starts)
        decreases |todo|
      {
        var key :| key in todo;
        todo := todo - {key};
        StartAppended(env, before, name, desired, working, starts, key);
        AppendKeepsEnumeration(starts, visited, key);
        StartIfMissing(name, desired, count, working, key);
        starts := starts + [key];
        visited := visited + {key};
      }
      assert visited == desired.Keys;
    }

    method StartIfMissing(name: NamespacedName, desired: map<string, NotificationSource>, count: nat,
                          working: set<string>, key: string)
      requires Valid() && key in desired && count == |WebhookKeys(desired)|
      modifies this, server.Repr
      ensures Valid() && fresh(server.Repr - old(server.Repr))
      ensures Model() == StartOne(env, old(Model()), name, desired, working, key)
    {
      var live := if name in listeners then listeners[name] else map[];
      var source := desired[key];
      if key in live {
        return;
      }
      var listener;
      if source.kind == WEBHOOK {
        if !env.hasServer {
          return;
        }
        var config := EMPTY_WEBHOOK;
        if source.webhook.Some? {
          config := source.webhook.value;
        } else if KUBERNETES_SECRET in source.blocks || KUBERNETES_CONFIG_MAP in source.blocks {
          return;
        }
        var routeKey := RouteKey(name.name, config.pathSuffix, key, count);
        server.Register(routeKey, config);
        listener := WebhookListener(routeKey, config);
      } else {
        if key !in working {
          return;
        }
        listener := OtherListener(source.kind, BlockOf(source));
      }
      listeners := listeners[name := live[key := listener]];
    }

    method StopAll(failing: set<(NamespacedName, string)>)
      returns (errors: set<(NamespacedName, string)>, ghost step: Step)
      requires Valid()
      modifies this, server.Repr
      ensures Valid() && fresh(server.Repr - old(server.Repr))
      ensures step.StopAll? && ValidStep(env, old(Model()), step)
      ensures Model() == Exec(env, old(Model()), step)
      ensures errors == AllFailures(old(listeners), old(listeners).Keys, failing)
    {
      ghost var groups;
      errors, groups := StopEach(failing);
      step := Step.StopAll(groups);
    }

    method StopEach(failing: set<(NamespacedName, string)>)
      returns (errors: set<(NamespacedName, string)>, ghost groups: seq<Group>)
      requires Valid()
      modifies this, server.Repr
      ensures Valid() && server.Repr == old(server.Repr)
      ensures GroupsCover(old(Model()), groups, old(listeners).Keys)
      ensures Model() == StopGroups(old(Model()), groups)
      ensures errors == AllFailures(old(listeners), old(listeners).Keys, failing)
    {
      ghost var before := Model();
      ghost var done: set<NamespacedName> := {};
      groups, errors := [], {};
      var names := listeners.Keys;
      while names != {}
        invariant Valid() && server.Repr == old(server.Repr)
        invariant Parts(done, names - {}, before.listeners.Keys)
        invariant StillThere(before.listeners, listeners, names)
        invariant GroupsCover(before, groups, done)
        invariant Model() == StopGroups(before, groups)
        invariant errors == AllFailures(before.listeners, done, failing)
        decreases |names|
      {
        var name :| name in names;
        TakeOut(done, names, {}, before.listeners.Keys, name);
        StillThereRest(before.listeners, listeners, names, name);
        names := names - {name};
        errors, groups := StopConfig(name, failing, errors, before, groups, done);
        done := done + {name};
      }
      assert done == before.listeners.Keys;
    }

    /** One turn of the outer loop of StopAll. */
    method StopConfig(name: NamespacedName, failing: set<(NamespacedName, string)>, errors: set<(NamespacedName, string)>,
                      ghost before: State, ghost groups: seq<Group>, ghost done: set<NamespacedName>)
      returns (errors': set<(NamespacedName, string)>, ghost groups': seq<Group>)
      requires Valid() && name in listeners && name !in done
      requires InRange(before.server) && name in before.listeners && listeners[name] == before.listeners[name]
      requires GroupsCover(before, groups, done)
      requires Model() == StopGroups(before, groups)
      requires errors == AllFailures(before.listeners, done, failing)
      modifies this, server.Repr
      ensures Valid() && server.Repr == old(server.Repr)
      ensures forall names :: name !in names && StillThere(before.listeners, old(listeners), names)
                              ==> StillThere(before.listeners, listeners, names)
      ensures GroupsCover(before, groups', done + {name})
      ensures Model() == StopGroups(before, groups')
      ensures errors' == AllFailures(before.listeners, done + {name}, failing)
    {
      var failed, order := StopExcept(name, {}, failing);
      assert before.listeners[name].Keys - {} == before.listeners[name].Keys;
      GroupAppended(before, groups, done, Group(name, order));
      AllFailuresGrow(before.listeners, done, name, failing);
      errors' := errors + failed;
      groups' := groups + [Group(name, order)];
    }
  }

  /** What a loop that stops the unwanted listeners of a Config was asked to do. */
  datatype StopJob = StopJob(name: NamespacedName, before: map<NamespacedName, map<string, Listener>>,
                             wanted: set<string>, failing: set<(NamespacedName, string)>)
  {
    /** What is known once the keys outside `todo` have been visited. */
    ghost predicate Progress(now: map<NamespacedName, map<string, Listener>>, todo: set<string>, stopped: set<string>,
                             errors: set<(NamespacedName, string)>)
    {
      && name in before && name in now
      && OthersKept(before, now, name)
      && Untouched(before[name], now[name], todo)
      && Parts(stopped, todo - wanted, before[name].Keys - wanted)
      && errors == Failures(before[name], stopped, name, failing)
    }

    lemma Visit(now: map<NamespacedName, map<string, Listener>>, todo: set<string>, stopped: set<string>,
                errors: set<(NamespacedName, string)>, key: string)
      requires Progress(now, todo, stopped, errors) && key in todo
      ensures key in wanted ==> Progress(now, todo - {key}, stopped, errors)
      ensures key !in wanted ==>
                && key !in stopped && key in now[name]
                && var failed := if now[name][key].OtherListener? && (name, key) in failing then {(name, key)} else {};
                   Progress(now[name := now[name] - {key}], todo - {key}, stopped + {key}, errors + failed)
    {
      TakeOut(stopped, todo, wanted, before[name].Keys - wanted, key);
      UntouchedRest(before[name], now[name], todo, key);
      FailuresGrow(before[name], stopped, name, failing, key);
      UpdateKeepsOthers(before, now, name, now[name] - {key});
    }

    lemma Finish(now: map<NamespacedName, map<string, Listener>>, stopped: set<string>,
                 errors: set<(NamespacedName, string)>)
      requires Progress(now, {}, stopped, errors)
      ensures stopped == before[name].Keys - wanted
      ensures OthersKept(before, now, name)
      ensures errors == Failures(before[name], before[name].Keys - wanted, name, failing)
    {
      assert {} - wanted == {};
    }
  }

  /** The keys still to visit have their old listeners. */
  ghost predicate Untouched(live: map<string, Listener>, now: map<string, Listener>, todo: set<string>) {
    forall key :: key in todo ==> key in live && key in now && now[key] == live[key]
  }

  lemma UntouchedRest(live: map<string, Listener>, now: map<string, Listener>, todo: set<string>, key: string)
    requires Untouched(live, now, todo)
    ensures Untouched(live, now, todo - {key}) && Untouched(live, now - {key}, todo - {key})
  {
  }

  ghost predicate OthersKept(before: map<NamespacedName, map<string, Listener>>,
                             now: map<NamespacedName, map<string, Listener>>, name: NamespacedName)
  {
    forall n :: n in before && n != name ==> n in now && now[n] == before[n]
  }

  lemma UpdateKeepsOthers(before: map<NamespacedName, map<string, Listener>>,
                          now: map<NamespacedName, map<string, Listener>>, name: NamespacedName, live: map<string, Listener>)
    requires OthersKept(before, now, name)
    ensures OthersKept(before, now[name := live], name)
    ensures now[name := live][name] == live
  {
  }

  ghost predicate StillThere(before: map<NamespacedName, map<string, Listener>>,
                             now: map<NamespacedName, map<string, Listener>>, names: set<NamespacedName>)
  {
    forall n :: n in names ==> n in before && n in now && now[n] == before[n]
  }

  lemma StillThereRest(before: map<NamespacedName, map<string, Listener>>,
                       now: map<NamespacedName, map<string, Listener>>, names: set<NamespacedName>, name: NamespacedName)
    requires StillThere(before, now, names) && name in names
    ensures name in before && name in now && now[name] == before[name]
    ensures StillThere(before, now, names - {name})
  {
  }

  ghost predicate Parts<T(!new)>(a: set<T>, b: set<T>, all: set<T>) {
    a !! b && a + b == all
  }

  /** Moving one element from the part to visit to the visited part. */
  lemma TakeOut<T(!new)>(visited: set<T>, todo: set<T>, skipped: set<T>, all: set<T>, x: T)
    requires Parts(visited, todo - skipped, all) && x in todo
    ensures x in skipped ==> Parts(visited, todo - {x} - skipped, all)
    ensures x !in skipped ==> x !in visited && Parts(visited + {x}, todo - {x} - skipped, all)
  {
    if x in skipped {
      assert todo - {x} - skipped == todo - skipped;
    } else {
      assert todo - {x} - skipped == (todo - skipped) - {x};
    }
  }

  /** Those of the given listeners of a Config that report an error when stopped. */
  ghost function Failures(live: map<string, Listener>, keys: set<string>, name: NamespacedName,
                          failing: set<(NamespacedName, string)>): set<(NamespacedName, string)>
  {
    set key | key in keys && key in live && (name, key) in failing && live[key].OtherListener? :: (name, key)
  }

  lemma FailuresGrow(live: map<string, Listener>, keys: set<string>, name: NamespacedName,
                     failing: set<(NamespacedName, string)>, key: string)
    requires key in live
    ensures Failures(live, keys + {key}, name, failing) ==
            Failures(live, keys, name, failing)
            + if (name, key) in failing && live[key].OtherListener? then {(name, key)} else {}
  {
  }

  ghost function AllFailures(listeners: map<NamespacedName, map<string, Listener>>, names: set<NamespacedName>,
                             failing: set<(NamespacedName, string)>): set<(NamespacedName, string)>
  {
    set name, key | name in names && name in listeners && key in listeners[name]
                    && (name, key) in failing && listeners[name][key].OtherListener? :: (name, key)
  }

  lemma AllFailuresGrow(listeners: map<NamespacedName, map<string, Listener>>, names: set<NamespacedName>, name: NamespacedName,
                        failing: set<(NamespacedName, string)>)
    requires name in listeners
    ensures AllFailures(listeners, names + {name}, failing) ==
            AllFailures(listeners, names, failing) + Failures(listeners[name], listeners[name].Keys, name, failing)
  {
  }
}
