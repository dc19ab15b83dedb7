/** The shared webhook server: a table of live routes, changed by Register and Unregister.
    The functions describe the table as a value; the classes below hold it in fields. */
module RouteTable {
  import opened Api

  /** A route that was built at some time. `workers` counts its running retry workers. */
  datatype RouteRecord = RouteRecord(key: string, config: WebhookConfig, cancelled: bool, workers: nat)

  /** `built` lists every route ever built; `routes` holds positions in it.
      `replacements` counts how often Register found its key taken. */
  datatype Server = Server(routes: map<string, nat>, built: seq<RouteRecord>, replacements: nat)

  const EMPTY_SERVER := Server(map[], [], 0)

  function WorkersFor(config: WebhookConfig): nat {
    if config.retryPolicy.Some? then 1 else 0
  }

  predicate InRange(s: Server) {
    forall key :: key in s.routes ==> s.routes[key] < |s.built|
  }

  function NewRecord(key: string, config: WebhookConfig): RouteRecord {
    RouteRecord(key, config, false, WorkersFor(config))
  }

  /** Cancelling a route and waiting for its worker; that the wait ends is proved in RouteProtocol. */
  function ShutdownRecord(r: RouteRecord): RouteRecord {
    r.(cancelled := true, workers := 0)
  }

  /** Shuts down the route that `key` is about to lose. */
  function Retired(s: Server, key: string): (r: Server)
    requires InRange(s)
    ensures InRange(r)
  {
    if key in s.routes then
      s.(built := s.built[s.routes[key] := ShutdownRecord(s.built[s.routes[key]])], replacements := s.replacements + 1)
    else s
  }

  function Added(s: Server, key: string, config: WebhookConfig): Server {
    Server(s.routes[key := |s.built|], s.built + [NewRecord(key, config)], s.replacements)
  }

  function Registered(s: Server, key: string, config: WebhookConfig): (r: Server)
    requires InRange(s)
    ensures InRange(r)
  {
    Added(Retired(s, key), key, config)
  }

  function Unregistered(s: Server, key: string): (r: Server)
    requires InRange(s)
    ensures InRange(r)
  {
    if key in s.routes then
      var id := s.routes[key];
      Server(s.routes - {key}, s.built[id := ShutdownRecord(s.built[id])], s.replacements)
    else s
  }

  /** The two servers agree on the entry of a key: same route object, in the same condition. */
  predicate SameEntry(s: Server, t: Server, key: string)
    requires InRange(s) && InRange(t)
  {
    && (key in s.routes <==> key in t.routes)
    && (key in s.routes ==> s.routes[key] == t.routes[key] && s.built[s.routes[key]] == t.built[t.routes[key]])
  }

  /** The configuration that a request for that route is handled with. */
  function Lookup(s: Server, key: string): Option<WebhookConfig>
    requires InRange(s)
  {
    if key in s.routes then Some(s.built[s.routes[key]].config) else None
  }

  predicate IsFinished(r: RouteRecord) {
    r.cancelled && r.workers == 0
  }

  /** The entry of `key` is an uncancelled route built for that key, with its worker running. */
  predicate IsCurrent(s: Server, key: string)
    requires InRange(s)
  {
    && key in s.routes
    && var r := s.built[s.routes[key]];
       r.key == key && !r.cancelled && r.workers == WorkersFor(r.config)
  }

  /** Every route ever built is the current, uncancelled entry of its key or fully shut down. */
  predicate NoLeak(s: Server) {
    && InRange(s)
    && (forall key :: key in s.routes ==> IsCurrent(s, key))
    && (forall i :: 0 <= i < |s.built| ==> IsAccounted(s, i))
  }

  predicate IsAccounted(s: Server, i: nat)
    requires i < |s.built|
  {
    || IsFinished(s.built[i])
    || (s.built[i].key in s.routes && s.routes[s.built[i].key] == i)
  }

  lemma RegisteredKeepsNoLeak(s: Server, key: string, config: WebhookConfig)
    requires NoLeak(s)
    ensures NoLeak(Registered(s, key, config))
  {
    var t := Registered(s, key, config);
    forall k | k in t.routes ensures IsCurrent(t, k) {
      if k != key {
        assert IsCurrent(s, k);
      }
    }
    forall i | 0 <= i < |t.built| ensures IsAccounted(t, i) {
      if i < |s.built| {
        assert IsAccounted(s, i);
      }
    }
  }

  lemma UnregisteredKeepsNoLeak(s: Server, key: string)
    requires NoLeak(s)
    ensures NoLeak(Unregistered(s, key))
  {
    var t := Unregistered(s, key);
    forall k | k in t.routes ensures IsCurrent(t, k) {
      assert IsCurrent(s, k);
    }
    forall i | 0 <= i < |t.built| ensures IsAccounted(t, i) {
      assert IsAccounted(s, i);
    }
  }

  /** Register and Unregister touch the entry of their own key only. */
  lemma OtherEntriesKept(s: Server, key: string, config: WebhookConfig, other: string)
    requires NoLeak(s) && other != key
    ensures SameEntry(s, Registered(s, key, config), other)
    ensures SameEntry(s, Unregistered(s, key), other)
  {
    assert key in s.routes ==> IsCurrent(s, key);
    assert other in s.routes ==> IsCurrent(s, other);
  }

  class Route {
    ghost const id: nat
    const key: string
    const config: WebhookConfig
    var cancelled: bool
    var workers: nat

    ghost function Record(): RouteRecord
      reads this
    {
      RouteRecord(key, config, cancelled, workers)
    }

    constructor (ghost id: nat, key: string, config: WebhookConfig)
      ensures this.id == id && Record() == NewRecord(key, config)
      ensures this.key == key && this.config == config
      ensures !cancelled && workers == if config.retryPolicy.Some? then 1 else 0
    {
      this.id, this.key, this.config := id, key, config;
      cancelled := false;
      workers := if config.retryPolicy.Some? then 1 else 0;
    }

    method Shutdown()
      modifies this
      ensures Record() == ShutdownRecord(old(Record()))
      ensures cancelled && workers == 0
    {
      cancelled := true;
      workers := 0;
    }
  }

  /** `view` is the table as a value; Valid ties it to the routes. */
  class WebhookServer {
    var routes: map<string, Route>
    ghost var view: Server
    ghost var built: seq<Route>
    ghost var Repr: set<object>

    ghost predicate Valid()
      reads this, Repr
      ensures Valid() ==> this in Repr && InRange(view)
    {
      && this in Repr
      && |built| == |view.built|
      && (forall i :: 0 <= i < |built| ==> built[i] in Repr && built[i].id == i && view.built[i] == built[i].Record())
      && routes.Keys == view.routes.Keys
      && (forall key :: key in routes ==> view.routes[key] < |built| && built[view.routes[key]] == routes[key])
    }

    constructor ()
      ensures Valid() && fresh(Repr) && view == EMPTY_SERVER
    {
      routes, built, view := map[], [], EMPTY_SERVER;
      Repr := {this};
    }

    method Register(key: string, config: WebhookConfig)
      requires Valid()
      modifies Repr
      ensures Valid() && fresh(Repr - old(Repr))
      ensures view == Registered(old(view), key, config)
    {
      if key in routes {
        Replace(key);
      }
      Add(key, config);
    }

    method Add(key: string, config: WebhookConfig)
      requires Valid()
      modifies this
      ensures Valid() && fresh(Repr - old(Repr)) && old(Repr) <= Repr
      ensures view == Added(old(view), key, config)
    {
      var r := new Route(|built|, key, config);
      built, Repr := built + [r], Repr + {r};
      view := Added(view, key, config);
      routes := routes[key := r];
    }

    /** Shuts down the route that is about to be replaced. */
    method Replace(key: string)
      requires Valid() && key in routes
      modifies Repr
      ensures Valid() && Repr == old(Repr)
      ensures view == Retired(old(view), key)
    {
      routes[key].Shutdown();
      view := Retired(view, key);
    }

    method Unregister(key: string)
      requires Valid()
      modifies Repr
      ensures Valid() && Repr == old(Repr)
      ensures view == Unregistered(old(view), key)
    {
      if key in routes {
        routes[key].Shutdown();
        routes := routes - {key};
      }
      view := Unregistered(view, key);
    }
  }
}
