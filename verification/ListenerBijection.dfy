/** The route table and the live webhook listeners of all Configs correspond one to one, and
    exactly which calls break that. */
module ListenerBijection {
  import opened Api
  import opened Validation
  import opened RoutePaths
  import opened RouteTable
  import opened ListenerModel
  import opened ListenerIsolation

  /** Listener `key` of Config `name` is a live webhook listener with that route. */
  predicate Owns(s: State, name: NamespacedName, key: string, routeKey: string) {
    && name in s.listeners
    && key in s.listeners[name]
    && s.listeners[name][key].WebhookListener?
    && s.listeners[name][key].routeKey == routeKey
  }

  /** Every live webhook listener is served, with the configuration of its own source. */
  ghost predicate AllServed(s: State)
    requires InRange(s.server)
  {
    forall name, key, rk :: Owns(s, name, key, rk) ==> Lookup(s.server, rk) == Some(s.listeners[name][key].config)
  }

  /** Every route has a live listener. */
  ghost predicate AllOwned(s: State) {
    forall rk :: rk in s.server.routes ==> exists name, key :: Owns(s, name, key, rk)
  }

  /** No two live listeners share a route. */
  ghost predicate OwnersUnique(s: State) {
    forall n1, k1, n2, k2, rk :: Owns(s, n1, k1, rk) && Owns(s, n2, k2, rk) ==> n1 == n2 && k1 == k2
  }

  ghost predicate Bijective(s: State) {
    InRange(s.server) && AllServed(s) && AllOwned(s) && OwnersUnique(s)
  }

  /** Which listeners remain when one is stopped. */
  lemma StopOneOwners(s: State, name: NamespacedName, key: string)
    requires InRange(s.server) && key in Live(s, name)
    ensures forall n, k, rk :: Owns(StopOne(s, name, key), n, k, rk) <==> Owns(s, n, k, rk) && (n != name || k != key)
    ensures forall n, k, rk :: Owns(StopOne(s, name, key), n, k, rk)
                               ==> StopOne(s, name, key).listeners[n][k] == s.listeners[n][k]
  {
  }

  /** Removing the only owner of a route together with the route. */
  lemma RouteRemovedBijective(s: State, t: State, name: NamespacedName, key: string, rk: string)
    requires Bijective(s) && NoLeak(s.server) && Owns(s, name, key, rk)
    requires t.server == Unregistered(s.server, rk)
    requires forall n, k, r :: Owns(t, n, k, r) <==> Owns(s, n, k, r) && (n != name || k != key)
    requires forall n, k, r :: Owns(t, n, k, r) ==> t.listeners[n][k] == s.listeners[n][k]
    ensures Bijective(t)
  {
    forall n, k, r | Owns(t, n, k, r) ensures Lookup(t.server, r) == Some(t.listeners[n][k].config) {
      OtherEntriesKept(s.server, rk, s.listeners[name][key].config, r);
    }
    forall r | r in t.server.routes ensures exists n, k :: Owns(t, n, k, r) {
      var n, k :| Owns(s, n, k, r);
      assert Owns(t, n, k, r);
    }
  }

  lemma StopOneBijective(env: Env, s: State, name: NamespacedName, key: string)
    requires Sound(env, s) && Bijective(s)
    ensures Bijective(StopOne(s, name, key))
  {
    if key in Live(s, name) {
      var l, t := s.listeners[name][key], StopOne(s, name, key);
      StopOneOwners(s, name, key);
      if l.WebhookListener? {
        RouteRemovedBijective(s, t, name, key, l.routeKey);
      } else {
        assert forall n, k, rk :: Owns(t, n, k, rk) <==> Owns(s, n, k, rk);
      }
    }
  }

  lemma {:induction false} StopInOrderBijective(env: Env, s: State, name: NamespacedName, order: seq<string>)
    requires Sound(env, s) && Bijective(s)
    ensures Bijective(StopInOrder(s, name, order))
  {
    if order != [] {
      var init := order[..|order| - 1];
      StopInOrderBijective(env, s, name, init);
      StopInOrderSound(env, s, name, init);
      StopOneBijective(env, StopInOrder(s, name, init), name, order[|order| - 1]);
    }
  }

  lemma {:induction false} StopGroupsBijective(env: Env, s: State, groups: seq<Group>)
    requires Sound(env, s) && Bijective(s)
    ensures Bijective(StopGroups(s, groups))
  {
    if groups != [] {
      var init, last := groups[..|groups| - 1], groups[|groups| - 1];
      StopGroupsBijective(env, s, init);
      StopGroupsSound(env, s, init);
      StopInOrderBijective(env, StopGroups(s, init), last.name, last.order);
    }
  }

  /** Which listeners there are when one is started. */
  lemma PutOwners(s: State, name: NamespacedName, key: string, l: Listener)
    requires key !in Live(s, name)
    ensures forall n, k, rk :: Owns(Put(s, name, key, l), n, k, rk) <==>
              Owns(s, n, k, rk) || (n == name && k == key && l.WebhookListener? && rk == l.routeKey)
    ensures forall n, k, rk :: Owns(s, n, k, rk) ==> Put(s, name, key, l).listeners[n][k] == s.listeners[n][k]
    ensures l.WebhookListener? ==> Put(s, name, key, l).listeners[name][key] == l
  {
  }

  /** Adding an owner together with its route, which was free. */
  lemma RouteAddedBijective(s: State, t: State, name: NamespacedName, key: string, l: Listener)
    requires Bijective(s) && NoLeak(s.server) && l.WebhookListener? && l.routeKey !in s.server.routes
    requires t.server == Registered(s.server, l.routeKey, l.config)
    requires forall n, k, r :: Owns(t, n, k, r) <==> Owns(s, n, k, r) || (n == name && k == key && r == l.routeKey)
    requires forall n, k, r :: Owns(s, n, k, r) ==> Owns(t, n, k, r) && t.listeners[n][k] == s.listeners[n][k]
    requires Owns(t, name, key, l.routeKey) && t.listeners[name][key] == l
    ensures Bijective(t)
  {
    forall n, k, r | Owns(s, n, k, r)
      ensures r != l.routeKey && Lookup(t.server, r) == Some(t.listeners[n][k].config)
    {
      assert Lookup(s.server, r) == Some(s.listeners[n][k].config);
      OtherEntriesKept(s.server, l.routeKey, l.config, r);
    }
    forall r | r in t.server.routes ensures exists n, k :: Owns(t, n, k, r) {
      if r != l.routeKey {
        var n, k :| Owns(s, n, k, r);
        assert Owns(t, n, k, r);
      }
    }
  }

  /** Adding a listener keeps the correspondence as long as its route, if it has one, was free. */
  lemma AddedListenerBijective(env: Env, s: State, name: NamespacedName, key: string, l: Listener)
    requires Sound(env, s) && Bijective(s)
    requires key !in Live(s, name)
    requires l.WebhookListener? ==> l.routeKey !in s.server.routes
    ensures Bijective(Put(s.(server := StartListener(s.server, l)), name, key, l))
  {
    var t := Put(s.(server := StartListener(s.server, l)), name, key, l);
    PutOwners(s, name, key, l);
    assert t.listeners == Put(s, name, key, l).listeners;
    assert forall n, k, rk :: Owns(t, n, k, rk) <==> Owns(Put(s, name, key, l), n, k, rk);
    if l.WebhookListener? {
      RouteAddedBijective(s, t, name, key, l);
    }
  }

  lemma StartOneBijective(env: Env, s: State, name: NamespacedName, desired: map<string, NotificationSource>,
                          working: set<string>, key: string)
    requires Sound(env, s) && Bijective(s)
    ensures var t := StartOne(env, s, name, desired, working, key);
            && t.server.replacements >= s.server.replacements
            && (t.server.replacements == s.server.replacements ==> Bijective(t))
  {
    if key in desired && key !in Live(s, name) && Startable(env, desired[key], key, working) {
      var l := NewListener(name, key, desired[key], |WebhookKeys(desired)|);
      if l.WebhookListener? ==> l.routeKey !in s.server.routes {
        AddedListenerBijective(env, s, name, key, l);
      }
    }
  }

  lemma {:induction false} StartInOrderBijective(env: Env, s: State, name: NamespacedName,
                                                 desired: map<string, NotificationSource>,
                                                 working: set<string>, order: seq<string>)
    requires Sound(env, s) && Bijective(s) && KeysMatch(env, desired)
    ensures var t := StartInOrder(env, s, name, desired, working, order);
            && t.server.replacements >= s.server.replacements
            && (t.server.replacements == s.server.replacements ==> Bijective(t))
  {
    if order != [] {
      var init := order[..|order| - 1];
      StartInOrderBijective(env, s, name, desired, working, init);
      StartInOrderSound(env, s, name, desired, working, init);
      var before := StartInOrder(env, s, name, desired, working, init);
      if Bijective(before) {
        StartOneBijective(env, before, name, desired, working, order[|order| - 1]);
      }
    }
  }

  // Listener keys determine what they were made from.

  lemma KindHasNoDash(kind: string)
    requires IsSupported(kind)
    ensures '-' !in kind
  {
  }

  lemma DashSeparates(kind1: string, digest1: string, kind2: string, digest2: string)
    requires '-' !in kind1 && '-' !in kind2
    requires Key(kind1, digest1) == Key(kind2, digest2)
    ensures kind1 == kind2 && digest1 == digest2
  {
    var a, b := Key(kind1, digest1), Key(kind2, digest2);
    assert a[|kind1|] == '-' && b[|kind2|] == '-';
    assert forall i :: 0 <= i < |kind1| ==> a[i] == kind1[i];
    assert forall i :: 0 <= i < |kind2| ==> b[i] == kind2[i];
    assert |kind1| == |kind2|;
    assert a[..|kind1|] == kind1 && b[..|kind2|] == kind2;
    assert a[|kind1| + 1..] == digest1 && b[|kind2| + 1..] == digest2;
  }

  lemma KeyInjective(kind1: string, digest1: string, kind2: string, digest2: string)
    requires IsSupported(kind1) && IsSupported(kind2)
    requires Key(kind1, digest1) == Key(kind2, digest2)
    ensures kind1 == kind2 && digest1 == digest2
  {
    KindHasNoDash(kind1);
    KindHasNoDash(kind2);
    DashSeparates(kind1, digest1, kind2, digest2);
  }

  /** A listener under the key of a webhook source is a webhook listener with the
      configuration of that source. */
  lemma LiveUnderWebhookKey(env: Env, name: NamespacedName, key: string, l: Listener, source: NotificationSource)
    requires Injective(env.hash)
    requires Keyed(env, name, key, l)
    requires IsWebhook(source) && ListenerKey(env, source) == Some(key)
    ensures l.WebhookListener? && l.config == EffectiveConfig(source.webhook)
  {
    match l
    case WebhookListener(_, config) =>
      if key == WebhookKey(env, Some(config)) {
        KeyInjective(WEBHOOK, env.hash(WebhookBlock(Some(config))), WEBHOOK, env.hash(WebhookBlock(source.webhook)));
        assert WebhookBlock(Some(config)) == WebhookBlock(source.webhook);
      } else {
        KeyInjective(WEBHOOK, env.hash(WebhookBlock(None)), WEBHOOK, env.hash(WebhookBlock(source.webhook)));
        assert WebhookBlock(None) == WebhookBlock(source.webhook);
      }
    case OtherListener(kind, block) =>
      KeyInjective(kind, env.hash(OtherBlock(block)), WEBHOOK, env.hash(WebhookBlock(source.webhook)));
  }

  lemma WebhookRoutes(env: Env, name: string, config: WebhookConfig, webhook: Option<WebhookConfig>, count: int)
    ensures var key := WebhookKey(env, webhook);
            RouteKey(name, config.pathSuffix, key, count) ==
            if config.pathSuffix != "" then name + "/" + config.pathSuffix
            else if count <= 1 then name else name + "/" + env.hash(WebhookBlock(webhook))
  {
    var key := WebhookKey(env, webhook);
    assert KEY_PREFIX == WEBHOOK + "-";
    assert KEY_PREFIX <= key && key[|KEY_PREFIX|..] == env.hash(WebhookBlock(webhook));
  }
}
