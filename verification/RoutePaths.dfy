/** Printing and parsing of the HTTP route of a webhook source. */
module RoutePaths {
  import opened Api

  const ROUTE_PREFIX := "/webhook/"
  const KEY_PREFIX := "Webhook-"

  predicate SlashFree(s: string) {
    '/' !in s
  }

  /** The route of a webhook source: its explicit suffix, the bare Config name for a
      single source, or the hash in its listener key. */
  function RouteKey(configName: string, pathSuffix: string, listenerKey: string, webhookSourceCount: int): string {
    if pathSuffix != "" then configName + "/" + pathSuffix
    else if webhookSourceCount <= 1 then configName
    else configName + "/" + StripKeyPrefix(listenerKey)
  }

  function StripKeyPrefix(listenerKey: string): string {
    if KEY_PREFIX <= listenerKey then listenerKey[|KEY_PREFIX|..] else listenerKey
  }

  function FirstSlash(s: string): (i: nat)
    requires !SlashFree(s)
    ensures i < |s| && s[i] == '/' && SlashFree(s[..i])
    ensures forall j :: 0 <= j < |s| && s[j] == '/' ==> i <= j
  {
    if s[0] == '/' then 0
    else
      var i := FirstSlash(s[1..]);
      assert s[..i + 1] == [s[0]] + s[1..][..i];
      i + 1
  }

  function Split(s: string): (parts: seq<string>)
    ensures |parts| >= 1
    ensures forall p :: p in parts ==> SlashFree(p)
    ensures |parts| == 1 ==> s == parts[0]
    ensures |parts| == 2 ==> s == parts[0] + "/" + parts[1]
  {
    if SlashFree(s) then [s]
    else
      var i := FirstSlash(s);
      [s[..i]] + Split(s[i + 1..])
  }

  function RouteKeyFromPath(path: string): Option<string> {
    if !(ROUTE_PREFIX <= path) then None
    else
      var rest := path[|ROUTE_PREFIX|..];
      if rest == "" then None
      else
        var parts := Split(rest);
        if |parts| == 1 then Some(parts[0])
        else if |parts| == 2 then
          if parts[0] == "" || parts[1] == "" then None else Some(parts[0] + "/" + parts[1])
        else None
  }

  /** One nonempty segment, or two of them around one slash. */
  ghost predicate IsRoute(key: string) {
    || (key != "" && SlashFree(key))
    || exists a, b :: IsPair(key, a, b)
  }

  ghost predicate IsPair(key: string, a: string, b: string) {
    && key == a + "/" + b
    && a != "" && SlashFree(a)
    && b != "" && SlashFree(b)
  }

  lemma SplitPair(a: string, b: string)
    requires SlashFree(a) && SlashFree(b)
    ensures Split(a + "/" + b) == [a, b]
  {
    var s := a + "/" + b;
    assert s[|a|] == '/';
    var i := FirstSlash(s);
    assert forall j :: 0 <= j < |a| ==> s[j] == a[j] != '/';
    assert s[..i] == a && s[i + 1..] == b;
  }

  /** Parsing succeeds exactly on the prefix followed by a route, and returns that route. */
  lemma ParseExact(path: string, key: string)
    ensures RouteKeyFromPath(path) == Some(key) <==> path == ROUTE_PREFIX + key && IsRoute(key)
  {
    if path == ROUTE_PREFIX + key && IsRoute(key) {
      assert path[|ROUTE_PREFIX|..] == key;
      if !SlashFree(key) {
        var a, b :| IsPair(key, a, b);
        SplitPair(a, b);
      }
    }
    if RouteKeyFromPath(path) == Some(key) {
      var rest := path[|ROUTE_PREFIX|..];
      assert path == ROUTE_PREFIX + rest;
      var parts := Split(rest);
      if |parts| == 2 {
        assert parts[0] in parts && parts[1] in parts;
        assert IsPair(key, parts[0], parts[1]);
      } else {
        assert parts[0] in parts;
      }
    }
  }

  /** Every key the printer produces for a well-formed source parses back to itself. */
  lemma PrintedRoutesParse(configName: string, pathSuffix: string, listenerKey: string, count: int)
    requires configName != "" && SlashFree(configName)
    requires SlashFree(pathSuffix)
    requires StripKeyPrefix(listenerKey) != "" && SlashFree(StripKeyPrefix(listenerKey))
    ensures var key := RouteKey(configName, pathSuffix, listenerKey, count);
            IsRoute(key) && RouteKeyFromPath(ROUTE_PREFIX + key) == Some(key)
  {
    var key := RouteKey(configName, pathSuffix, listenerKey, count);
    if pathSuffix != "" {
      assert IsPair(key, configName, pathSuffix);
    } else if count > 1 {
      assert IsPair(key, configName, StripKeyPrefix(listenerKey));
    }
    ParseExact(ROUTE_PREFIX + key, key);
  }

  /** The route keys that a Config of that name may own. */
  predicate BelongsTo(key: string, configName: string) {
    key == configName || configName + "/" <= key
  }

  lemma LongerOwnerHasSlash(key: string, a: string, b: string)
    requires BelongsTo(key, a) && BelongsTo(key, b)
    requires |a| < |b|
    ensures !SlashFree(b)
  {
    assert key[|a|] == (a + "/")[|a|] == '/';
    assert key[|a|] == b[|a|];
  }

  /** A route key determines the Config that owns it. */
  lemma OneOwnerName(key: string, a: string, b: string)
    requires SlashFree(a) && SlashFree(b)
    requires BelongsTo(key, a) && BelongsTo(key, b)
    ensures a == b
  {
    if |a| < |b| {
      LongerOwnerHasSlash(key, a, b);
    } else if |b| < |a| {
      LongerOwnerHasSlash(key, b, a);
    } else {
      assert key[..|a|] == a && key[..|b|] == b;
    }
  }
}
