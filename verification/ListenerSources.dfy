/** What an accepted call listens to and under which routes, told by the fields of its sources. */
module ListenerSources {
  import opened Api
  import opened Validation
  import opened RoutePaths
  import opened RouteTable
  import opened ListenerModel
  import opened ListenerIsolation
  import opened ListenerBijection
  import opened ListenerClash
  import opened ListenerHistory

  /** A source is listened to exactly if its type is one of these nine. */
  lemma ListenedTypes(env: Env, source: NotificationSource)
    ensures ListenerKey(env, source).Some? <==>
            source.kind in {"Webhook", "KubernetesSecret", "KubernetesConfigMap", "AwsSqs", "AzureEventGrid",
                            "GooglePubSub", "HashicorpVault", "TCPSocket", "Mock"}
  {
  }

  /** Both sources have the block of that type or neither has, and where they have it, it is the same. */
  predicate SameBlock(a: NotificationSource, b: NotificationSource, kind: string) {
    && (kind in a.blocks <==> kind in b.blocks)
    && (kind in a.blocks && kind in b.blocks ==> a.blocks[kind] == b.blocks[kind])
  }

  /** Two sources share a listener key if and only if they have the same type and the same block for
      that type; their other blocks do not count. */
  lemma SharedKeyIff(env: Env, a: NotificationSource, b: NotificationSource)
    requires Injective(env.hash)
    requires ListenerKey(env, a).Some? && ListenerKey(env, b).Some?
    ensures ListenerKey(env, a) == ListenerKey(env, b) <==>
            a.kind == b.kind && if a.kind == "Webhook" then a.webhook == b.webhook else SameBlock(a, b, a.kind)
  {
    if ListenerKey(env, a) == ListenerKey(env, b) {
      KeyInjective(a.kind, env.hash(PayloadOf(a)), b.kind, env.hash(PayloadOf(b)));
      assert PayloadOf(a) == PayloadOf(b);
    }
  }

  /** The listener is for sources like that one. */
  predicate IsFor(l: Listener, source: NotificationSource) {
    && l.OtherListener?
    && l.kind == source.kind
    && (l.block.Some? <==> source.kind in source.blocks)
    && (l.block.Some? && source.kind in source.blocks ==> l.block.value == source.blocks[source.kind])
  }

  /** The call can start a listener for the source or finds it live. */
  predicate Reachable(env: Env, s: State, step: Step, source: NotificationSource)
    requires step.Manage?
  {
    var key := ListenerKey(env, source);
    key.Some? && (key.value in Live(s, step.name) || key.value in step.working)
  }

  /** After an accepted call every source of another type than webhook that is live or can be started
      has a live listener of its own type and block under its key. */
  lemma OtherSourceIsLive(env: Env, s: State, step: Step, i: nat)
    requires Injective(env.hash) && Sound(env, s)
    requires ValidStep(env, s, step) && step.Manage? && DistinctSuffixes(step.sources)
    requires i < |step.sources| && step.sources[i].kind != "Webhook" && Reachable(env, s, step, step.sources[i])
    ensures var key, live := ListenerKey(env, step.sources[i]).value, Live(Exec(env, s, step), step.name);
            key in live && IsFor(live[key], step.sources[i])
  {
    var t, source, desired := Exec(env, s, step), step.sources[i], Desired(env, step.sources);
    var key := ListenerKey(env, source).value;
    SourceIsDesired(env, step.sources, i);
    DesiredKeysMatch(env, step.sources);
    SharedKeyIff(env, source, desired[key]);
    ManageListenersExact(env, s, step);
    ManageTouchesOneConfig(env, s, step);
    assert Keyed(env, step.name, key, Live(t, step.name)[key]);
    OtherKeyDetermines(env, step.name, key, Live(t, step.name)[key], source);
  }

  /** Two sources of one type with different blocks are listened to by two listeners. */
  lemma DifferentBlocksTwoListeners(env: Env, s: State, step: Step, i: nat, j: nat)
    requires Injective(env.hash) && Sound(env, s)
    requires ValidStep(env, s, step) && step.Manage? && DistinctSuffixes(step.sources)
    requires i < |step.sources| && step.sources[i].kind != "Webhook" && Reachable(env, s, step, step.sources[i])
    requires j < |step.sources| && step.sources[j].kind != "Webhook" && Reachable(env, s, step, step.sources[j])
    requires step.sources[i].kind == step.sources[j].kind
    requires !SameBlock(step.sources[i], step.sources[j], step.sources[i].kind)
    ensures var live := Live(Exec(env, s, step), step.name);
            var ki, kj := ListenerKey(env, step.sources[i]).value, ListenerKey(env, step.sources[j]).value;
            && ki != kj && ki in live && kj in live && live[ki] != live[kj]
            && IsFor(live[ki], step.sources[i]) && IsFor(live[kj], step.sources[j])
  {
    OtherSourceIsLive(env, s, step, i);
    OtherSourceIsLive(env, s, step, j);
    SharedKeyIff(env, step.sources[i], step.sources[j]);
  }

  /** And there is no other: every live listener is that of a source, under the key of that source. */
  lemma LiveListenerHasSource(env: Env, s: State, step: Step, key: string) returns (i: nat)
    requires Injective(env.hash) && Sound(env, s)
    requires ValidStep(env, s, step) && step.Manage? && DistinctSuffixes(step.sources)
    requires key in Live(Exec(env, s, step), step.name)
    ensures i < |step.sources| && ListenerKey(env, step.sources[i]) == Some(key)
    ensures var l := Live(Exec(env, s, step), step.name)[key];
            && (step.sources[i].kind != "Webhook" ==> IsFor(l, step.sources[i]) && Reachable(env, s, step, step.sources[i]))
            && (step.sources[i].kind == "Webhook" ==>
                  l.WebhookListener? && l.config == (if step.sources[i].webhook.Some? then step.sources[i].webhook.value
                                                     else WebhookConfig("", "", None, None)))
  {
    var t, desired := Exec(env, s, step), Desired(env, step.sources);
    ManageListenersExact(env, s, step);
    i := DesiredHasSource(env, step.sources, key);
    DesiredKeysMatch(env, step.sources);
    ManageTouchesOneConfig(env, s, step);
    assert Keyed(env, step.name, key, Live(t, step.name)[key]);
    if IsWebhook(step.sources[i]) {
      LiveUnderWebhookKey(env, step.name, key, Live(t, step.name)[key], step.sources[i]);
    } else {
      OtherKeyDetermines(env, step.name, key, Live(t, step.name)[key], step.sources[i]);
    }
  }

  predicate IsOnlyWebhook(sources: seq<NotificationSource>, i: nat)
    requires i < |sources|
  {
    forall j :: 0 <= j < |sources| && sources[j].kind == "Webhook" ==> j == i
  }

  lemma OnlyWebhookCount(env: Env, sources: seq<NotificationSource>, i: nat)
    requires Injective(env.hash) && DistinctSuffixes(sources)
    requires i < |sources| && IsWebhook(sources[i])
    ensures |WebhookKeys(Desired(env, sources))| <= 1 <==> IsOnlyWebhook(sources, i)
  {
    var desired, key := Desired(env, sources), WebhookKey(env, sources[i].webhook);
    WebhookIsDesired(env, sources, i);
    if IsOnlyWebhook(sources, i) {
      OnlyOneKey(env, sources, i);
      assert |{key}| == 1;
    } else {
      var j :| 0 <= j < |sources| && sources[j].kind == "Webhook" && j != i;
      WebhookIsDesired(env, sources, j);
      AcceptedRawSuffixesDiffer(sources, i, j);
      TwoWebhooksCount(desired, key, WebhookKey(env, sources[j].webhook));
    }
  }

  lemma OnlyOneKey(env: Env, sources: seq<NotificationSource>, i: nat)
    requires Injective(env.hash) && DistinctSuffixes(sources)
    requires i < |sources| && IsWebhook(sources[i]) && IsOnlyWebhook(sources, i)
    ensures WebhookKeys(Desired(env, sources)) == {WebhookKey(env, sources[i].webhook)}
  {
    var desired := Desired(env, sources);
    WebhookIsDesired(env, sources, i);
    DesiredKeysMatch(env, sources);
    forall k | k in WebhookKeys(desired) ensures k == WebhookKey(env, sources[i].webhook) {
      var j := DesiredHasSource(env, sources, k);
    }
  }

  /** The route that an accepted call gives a webhook source it starts: its suffix if it has one, else
      the bare Config name if it is the only webhook source beside any others, else its hash. */
  lemma NewRouteExact(env: Env, s: State, step: Step, i: nat)
    requires Injective(env.hash) && InRange(s.server)
    requires ValidStep(env, s, step) && step.Manage? && DistinctSuffixes(step.sources)
    requires i < |step.sources| && step.sources[i].kind == "Webhook"
    requires env.hasServer
    requires step.sources[i].webhook.Some?
             || ("KubernetesSecret" !in step.sources[i].blocks && "KubernetesConfigMap" !in step.sources[i].blocks)
    requires ListenerKey(env, step.sources[i]).value !in Live(s, step.name)
    ensures var source, name, key := step.sources[i], step.name.name, ListenerKey(env, step.sources[i]).value;
            var config := if source.webhook.Some? then source.webhook.value else WebhookConfig("", "", None, None);
            var live := Live(Exec(env, s, step), step.name);
            key in live && live[key] ==
              WebhookListener(if config.pathSuffix != "" then name + "/" + config.pathSuffix
                              else if IsOnlyWebhook(step.sources, i) then name
                              else name + "/" + env.hash(WebhookBlock(source.webhook)), config)
  {
    var source, desired := step.sources[i], Desired(env, step.sources);
    WebhookIsDesired(env, step.sources, i);
    OnlyWebhookCount(env, step.sources, i);
    WebhookRoutes(env, step.name.name, EffectiveConfig(source.webhook), source.webhook, |WebhookKeys(desired)|);
    ManageListenersExact(env, s, step);
  }

  /** A webhook source that is neither live nor startable, because there is no server or because it
      carries a Kubernetes block instead of its own, is not listened to. */
  lemma UnservedWebhook(env: Env, s: State, step: Step, i: nat)
    requires Injective(env.hash) && InRange(s.server)
    requires ValidStep(env, s, step) && step.Manage? && DistinctSuffixes(step.sources)
    requires i < |step.sources| && step.sources[i].kind == "Webhook"
    requires !env.hasServer
             || (step.sources[i].webhook.None?
                 && ("KubernetesSecret" in step.sources[i].blocks || "KubernetesConfigMap" in step.sources[i].blocks))
    requires ListenerKey(env, step.sources[i]).value !in Live(s, step.name)
    ensures ListenerKey(env, step.sources[i]).value !in Live(Exec(env, s, step), step.name)
  {
    WebhookIsDesired(env, step.sources, i);
    ManageListenersExact(env, s, step);
  }

  /** The manager holds an entry for a Config after an accepted call exactly if it has a live listener. */
  lemma EntryIffLive(env: Env, s: State, step: Step)
    requires InRange(s.server) && ValidStep(env, s, step) && step.Manage? && DistinctSuffixes(step.sources)
    ensures step.name in Exec(env, s, step).listeners <==> Live(Exec(env, s, step), step.name) != map[]
  {
  }

  /** Stopping everything leaves the entries, all empty. */
  lemma StopAllKeepsEntries(env: Env, s: State, step: Step)
    requires InRange(s.server) && ValidStep(env, s, step) && step.StopAll?
    ensures Exec(env, s, step).listeners == map name | name in s.listeners :: map[]
  {
    GroupsKeepCount(s, step.groups, s.listeners.Keys);
    forall name | name in s.listeners ensures Exec(env, s, step).listeners[name] == map[] {
      StopAllStopsAll(env, s, step, name);
    }
  }
}
