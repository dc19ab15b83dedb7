/** Listener reconciliation as a function of the state before, the wanted sources and the
    order in which the two Go map loops happen to visit their keys. */
module ListenerModel {
  import opened Api
  import opened Validation
  import opened RoutePaths
  import opened RouteTable

  /** What is serialised and hashed into a listener key. */
  datatype Payload = WebhookBlock(webhook: Option<WebhookConfig>) | OtherBlock(block: Option<string>)

  /** `hash` stands for JSON followed by SHA-1 in hexadecimal; `hasServer` says whether a
      webhook server was configured. */
  datatype Env = Env(hash: Payload -> string, hasServer: bool)

  /** Blocks of webhooks have different hashes, and so have those of the other types; a webhook
      and another source may share one, as two missing blocks do. */
  ghost predicate Injective(hash: Payload -> string) {
    forall p, q :: hash(p) == hash(q) && (p.WebhookBlock? <==> q.WebhookBlock?) ==> p == q
  }

  function Key(kind: string, digest: string): string {
    kind + "-" + digest
  }

  function PayloadOf(source: NotificationSource): Payload {
    if IsWebhook(source) then WebhookBlock(source.webhook) else OtherBlock(BlockOf(source))
  }

  function BlockOf(source: NotificationSource): Option<string> {
    if source.kind in source.blocks then Some(source.blocks[source.kind]) else None
  }

  function ListenerKey(env: Env, source: NotificationSource): Option<string> {
    if IsSupported(source.kind) then Some(Key(source.kind, env.hash(PayloadOf(source)))) else None
  }

  function WebhookKey(env: Env, webhook: Option<WebhookConfig>): string {
    Key(WEBHOOK, env.hash(WebhookBlock(webhook)))
  }

  datatype Listener =
    | WebhookListener(routeKey: string, config: WebhookConfig)
    | OtherListener(kind: string, block: Option<string>)

  datatype State = State(listeners: map<NamespacedName, map<string, Listener>>, server: Server)

  const EMPTY_STATE := State(map[], EMPTY_SERVER)

  function Live(s: State, name: NamespacedName): map<string, Listener> {
    if name in s.listeners then s.listeners[name] else map[]
  }

  /** The wanted sources by key; a later source replaces an earlier one with the same key. */
  function Desired(env: Env, sources: seq<NotificationSource>): map<string, NotificationSource> {
    if sources == [] then map[]
    else
      var rest := Desired(env, sources[..|sources| - 1]);
      var source := sources[|sources| - 1];
      var key := ListenerKey(env, source);
      if key.Some? then rest[key.value := source] else rest
  }

  function WebhookKeys(desired: map<string, NotificationSource>): set<string> {
    set key | key in desired && IsWebhook(desired[key])
  }

  /** A webhook source without a webhook block is served with an empty one. */
  function EffectiveConfig(webhook: Option<WebhookConfig>): WebhookConfig {
    if webhook.Some? then webhook.value else EMPTY_WEBHOOK
  }

  /** Whether a listener for the source can be created and started. `working` holds the
      keys of the other sources for which creation and start succeed in this call. */
  predicate Startable(env: Env, source: NotificationSource, key: string, working: set<string>) {
    if IsWebhook(source) then
      && env.hasServer
      && (source.webhook.Some? || (KUBERNETES_SECRET !in source.blocks && KUBERNETES_CONFIG_MAP !in source.blocks))
    else key in working
  }

  function Put(s: State, name: NamespacedName, key: string, listener: Listener): State {
    s.(listeners := s.listeners[name := Live(s, name)[key := listener]])
  }

  function NewListener(name: NamespacedName, key: string, source: NotificationSource, count: int): Listener {
    if IsWebhook(source) then
      var config := EffectiveConfig(source.webhook);
      WebhookListener(RouteKey(name.name, config.pathSuffix, key, count), config)
    else OtherListener(source.kind, BlockOf(source))
  }

  function StartListener(server: Server, listener: Listener): (r: Server)
    requires InRange(server)
    ensures InRange(r)
  {
    if listener.WebhookListener? then Registered(server, listener.routeKey, listener.config) else server
  }

  function StopListener(server: Server, listener: Listener): (r: Server)
    requires InRange(server)
    ensures InRange(r)
  {
    if listener.WebhookListener? then Unregistered(server, listener.routeKey) else server
  }

  /** One turn of the loop that adds listeners. */
  function StartOne(env: Env, s: State, name: NamespacedName, desired: map<string, NotificationSource>,
                    working: set<string>, key: string): (r: State)
    requires InRange(s.server)
    ensures InRange(r.server)
  {
    if key !in desired || key in Live(s, name) || !Startable(env, desired[key], key, working) then s
    else
      var listener := NewListener(name, key, desired[key], |WebhookKeys(desired)|);
      Put(s.(server := StartListener(s.server, listener)), name, key, listener)
  }

  /** One turn of a loop that removes listeners. */
  function StopOne(s: State, name: NamespacedName, key: string): (r: State)
    requires InRange(s.server)
    ensures InRange(r.server)
  {
    if key !in Live(s, name) then s
    else State(s.listeners[name := s.listeners[name] - {key}], StopListener(s.server, s.listeners[name][key]))
  }

  function StartInOrder(env: Env, s: State, name: NamespacedName, desired: map<string, NotificationSource>,
                        working: set<string>, order: seq<string>): (r: State)
    requires InRange(s.server)
    ensures InRange(r.server)
  {
    if order == [] then s
    else
      var before := StartInOrder(env, s, name, desired, working, order[..|order| - 1]);
      StartOne(env, before, name, desired, working, order[|order| - 1])
  }

  function StopInOrder(s: State, name: NamespacedName, order: seq<string>): (r: State)
    requires InRange(s.server)
    ensures InRange(r.server)
  {
    if order == [] then s
    else StopOne(StopInOrder(s, name, order[..|order| - 1]), name, order[|order| - 1])
  }

  /** The keys of one Config in the order in which they are stopped. */
  datatype Group = Group(name: NamespacedName, order: seq<string>)

  function StopGroups(s: State, groups: seq<Group>): (r: State)
    requires InRange(s.server)
    ensures InRange(r.server)
  {
    if groups == [] then s
    else
      var last := groups[|groups| - 1];
      StopInOrder(StopGroups(s, groups[..|groups| - 1]), last.name, last.order)
  }

  function WithEntry(s: State, name: NamespacedName): State {
    s.(listeners := s.listeners[name := Live(s, name)])
  }

  function DropIfEmpty(s: State, name: NamespacedName): State {
    if Live(s, name) == map[] then s.(listeners := s.listeners - {name}) else s
  }

  /** A call and the orders in which its loops visit their keys. */
  datatype Step =
    | Manage(name: NamespacedName, sources: seq<NotificationSource>, working: set<string>,
             stops: seq<string>, starts: seq<string>)
    | StopAll(groups: seq<Group>)

  /** `order` lists every element of `all` once. */
  predicate Enumerates<T(==)>(order: seq<T>, all: set<T>) {
    if order == [] then all == {}
    else
      var last := order[|order| - 1];
      last in all && Enumerates(order[..|order| - 1], all - {last})
  }

  lemma {:induction false} EnumeratesExactly<T>(order: seq<T>, all: set<T>)
    requires Enumerates(order, all)
    ensures forall x :: x in order <==> x in all
    ensures |order| == |all|
  {
    if order != [] {
      var init, last := order[..|order| - 1], order[|order| - 1];
      EnumeratesExactly(init, all - {last});
      assert order == init + [last];
    }
  }

  function Unwanted(env: Env, s: State, name: NamespacedName, sources: seq<NotificationSource>): set<string> {
    Live(s, name).Keys - Desired(env, sources).Keys
  }

  /** The groups list every Config of `names` once, each with all its live keys. */
  predicate GroupsCover(s: State, groups: seq<Group>, names: set<NamespacedName>) {
    if groups == [] then names == {}
    else
      var last := groups[|groups| - 1];
      && last.name in names
      && Enumerates(last.order, Live(s, last.name).Keys)
      && GroupsCover(s, groups[..|groups| - 1], names - {last.name})
  }

  /** The orders of the step are possible for the map loops of the call. */
  predicate ValidStep(env: Env, s: State, step: Step) {
    match step
    case Manage(name, sources, working, stops, starts) =>
      Enumerates(stops, Unwanted(env, s, name, sources)) && Enumerates(starts, Desired(env, sources).Keys)
    case StopAll(groups) =>
      GroupsCover(s, groups, s.listeners.Keys)
  }

  lemma {:induction false} Enumeration<T>(all: set<T>) returns (order: seq<T>)
    ensures Enumerates(order, all)
  {
    if all == {} {
      order := [];
    } else {
      var x :| x in all;
      order := Enumeration(all - {x});
      assert (order + [x])[..|order|] == order;
      order := order + [x];
    }
  }

  /** A call of ManageListeners that is possible in that state. */
  lemma SomeCall(env: Env, s: State, name: NamespacedName, sources: seq<NotificationSource>, working: set<string>)
      returns (call: Step)
    ensures call.Manage? && call.name == name && call.sources == sources && call.working == working
    ensures ValidStep(env, s, call)
  {
    var stops := Enumeration(Unwanted(env, s, name, sources));
    var starts := Enumeration(Desired(env, sources).Keys);
    call := Manage(name, sources, working, stops, starts);
  }

  function AfterStops(s: State, step: Step): (r: State)
    requires InRange(s.server)
    ensures InRange(r.server)
  {
    match step
    case Manage(name, _, _, stops, _) => StopInOrder(WithEntry(s, name), name, stops)
    case StopAll(groups) => StopGroups(s, groups)
  }

  /** A rejected specification changes nothing. */
  function Exec(env: Env, s: State, step: Step): (r: State)
    requires InRange(s.server)
    ensures InRange(r.server)
  {
    match step
    case Manage(name, sources, working, stops, starts) =>
      if !DistinctSuffixes(sources) then s
      else
        var started := StartInOrder(env, AfterStops(s, step), name, Desired(env, sources), working, starts);
        DropIfEmpty(started, name)
    case StopAll(_) => AfterStops(s, step)
  }

  function Run(env: Env, s: State, steps: seq<Step>): (r: State)
    requires InRange(s.server)
    ensures InRange(r.server)
  {
    if steps == [] then s else Exec(env, Run(env, s, steps[..|steps| - 1]), steps[|steps| - 1])
  }

  ghost predicate ValidRun(env: Env, s: State, steps: seq<Step>)
    requires InRange(s.server)
  {
    steps == [] || (ValidRun(env, s, steps[..|steps| - 1])
                    && ValidStep(env, Run(env, s, steps[..|steps| - 1]), steps[|steps| - 1]))
  }
}
