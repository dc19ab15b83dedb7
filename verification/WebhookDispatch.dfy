/** Dispatch of HTTP requests by the shared server: which Config and source a URL reaches. */
module WebhookDispatch {
  import opened Api
  import opened RoutePaths
  import opened RouteTable
  import opened ListenerModel
  import opened ListenerIsolation
  import opened ListenerBijection

  datatype Response = MethodNotAllowed | NotFound | Handled(routeKey: string, config: WebhookConfig)

  function ServeHTTP(server: Server, verb: string, path: string): Response
    requires InRange(server)
  {
    if verb != "POST" then MethodNotAllowed
    else
      var key := RouteKeyFromPath(path);
      if key.None? || Lookup(server, key.value).None? then NotFound
      else Handled(key.value, Lookup(server, key.value).value)
  }

  /** When each of the three answers is given: the verb decides first, and a POST request is handled
      if and only if its path is the prefix with a key of the table that is a route. */
  lemma AnswersExact(server: Server, verb: string, path: string)
    requires InRange(server)
    ensures ServeHTTP(server, verb, path) == MethodNotAllowed <==> verb != "POST"
    ensures forall rk, config :: ServeHTTP(server, verb, path) == Handled(rk, config) <==>
              verb == "POST" && path == "/webhook/" + rk && IsRoute(rk) && rk in server.routes
              && config == server.built[server.routes[rk]].config
    ensures ServeHTTP(server, verb, path) == NotFound <==>
            verb == "POST" && forall rk :: path == "/webhook/" + rk && IsRoute(rk) ==> rk !in server.routes
  {
    forall rk ensures RouteKeyFromPath(path) == Some(rk) <==> path == "/webhook/" + rk && IsRoute(rk) {
      ParseExact(path, rk);
    }
  }

  /** A handled request reaches exactly one source of one Config, and is handled with the
      configuration of that source. */
  lemma HandledReachesOneSource(s: State, path: string, rk: string, config: WebhookConfig)
    requires Bijective(s)
    requires ServeHTTP(s.server, "POST", path) == Handled(rk, config)
    ensures path == ROUTE_PREFIX + rk
    ensures exists name, key :: Owns(s, name, key, rk)
    ensures forall name, key :: Owns(s, name, key, rk) ==> s.listeners[name][key].config == config
    ensures forall n1, k1, n2, k2 :: Owns(s, n1, k1, rk) && Owns(s, n2, k2, rk) ==> n1 == n2 && k1 == k2
  {
    ParseExact(path, rk);
  }

  /** The URL printed for a live webhook listener is answered by that listener. */
  lemma PrintedUrlIsHandled(env: Env, s: State, name: NamespacedName, key: string, rk: string)
    requires Sound(env, s) && Bijective(s)
    requires name.name != "" && SlashFree(name.name)
    requires forall p :: env.hash(p) != "" && SlashFree(env.hash(p))
    requires Owns(s, name, key, rk) && SlashFree(s.listeners[name][key].config.pathSuffix)
    ensures ServeHTTP(s.server, "POST", ROUTE_PREFIX + rk) == Handled(rk, s.listeners[name][key].config)
  {
    var l := s.listeners[name][key];
    assert Keyed(env, name, key, l);
    KeyedRoutesParse(env, name, key, l);
  }

  lemma KeyedRoutesParse(env: Env, name: NamespacedName, key: string, l: Listener)
    requires Keyed(env, name, key, l) && l.WebhookListener?
    requires name.name != "" && SlashFree(name.name) && SlashFree(l.config.pathSuffix)
    requires forall p :: env.hash(p) != "" && SlashFree(env.hash(p))
    ensures RouteKeyFromPath(ROUTE_PREFIX + l.routeKey) == Some(l.routeKey)
  {
    var webhook := if key == WebhookKey(env, Some(l.config)) then Some(l.config) else None;
    StripsToHash(env, webhook);
    PrintedRoutesParse(name.name, l.config.pathSuffix, key, 1);
    PrintedRoutesParse(name.name, l.config.pathSuffix, key, 2);
  }

  lemma StripsToHash(env: Env, webhook: Option<WebhookConfig>)
    ensures StripKeyPrefix(WebhookKey(env, webhook)) == env.hash(WebhookBlock(webhook))
  {
    assert KEY_PREFIX == WEBHOOK + "-";
  }
}
