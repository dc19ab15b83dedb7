/** The watch callback of the Kubernetes listener: one event for each change of an object's
    resource version, for objects that arrive in any interleaving. */
module VersionDedup {
  import opened Api

  datatype Observation = Observation(name: NamespacedName, version: string, deleting: bool)

  datatype RotationEvent = RotationEvent(secretIdentifier: string, namespace: string, triggerSource: string)

  /** What a listener watches. */
  datatype Watched = Secrets | ConfigMaps

  /** The type of the notification source that a listener was created for. */
  function SourceType(watched: Watched): string {
    if watched.Secrets? then KUBERNETES_SECRET else KUBERNETES_CONFIG_MAP
  }

  /** The listeners of both types share this code. */
  function EventFor(watched: Watched, name: NamespacedName): RotationEvent {
    RotationEvent(name.name, name.namespace, KUBERNETES_SECRET + "/" + name.name)
  }

  /** The trigger source of an event names the type of its notification source if and only if that
      is a Secret; the event of a ConfigMap is that of the Secret of the same name. */
  lemma TriggerNamesSecrets(watched: Watched, name: NamespacedName)
    ensures EventFor(watched, name).triggerSource == SourceType(watched) + "/" + name.name <==> watched.Secrets?
    ensures EventFor(ConfigMaps, name) == EventFor(Secrets, name)
  {
    assert |KUBERNETES_SECRET| != |KUBERNETES_CONFIG_MAP|;
  }

  /** The version of the latest observation of `name` among the first `n`, not counting deletions. */
  function LastVersion(observed: seq<Observation>, n: nat, name: NamespacedName): Option<string>
    requires n <= |observed|
  {
    if n == 0 then None
    else if observed[n - 1].name == name && !observed[n - 1].deleting then Some(observed[n - 1].version)
    else LastVersion(observed, n - 1, name)
  }

  /** Observation `i` changes the version of an object seen before. */
  predicate IsChange(observed: seq<Observation>, i: nat)
    requires i < |observed|
  {
    var o, last := observed[i], LastVersion(observed, i, observed[i].name);
    !o.deleting && last.Some? && last.value != o.version
  }

  /** The events of the first `n` observations, in order. */
  function EventsOf(watched: Watched, observed: seq<Observation>, n: nat): seq<RotationEvent>
    requires n <= |observed|
  {
    if n == 0 then []
    else
      var earlier := EventsOf(watched, observed, n - 1);
      if IsChange(observed, n - 1) then earlier + [EventFor(watched, observed[n - 1].name)] else earlier
  }

  /** The events are those of the observations `at`: these are the ones among the first `n` that change
      a version, all of them and in order, and each event names the object that was observed. */
  ghost predicate Tells(events: seq<RotationEvent>, observed: seq<Observation>, n: nat, at: seq<nat>)
    requires n <= |observed|
  {
    && |at| == |events|
    && (forall j, k :: 0 <= j < k < |at| ==> at[j] < at[k])
    && (forall i: nat :: i in at <==> i < n && IsChange(observed, i))
    && (forall k :: 0 <= k < |at| ==> at[k] < n && Names(events[k], observed[at[k]].name))
  }

  /** The event is about that object. */
  predicate Names(event: RotationEvent, name: NamespacedName) {
    event.secretIdentifier == name.name && event.namespace == name.namespace
  }

  /** Events and version changes correspond one to one, in order. */
  lemma {:induction false} EventsTellChanges(watched: Watched, observed: seq<Observation>, n: nat) returns (at: seq<nat>)
    requires n <= |observed|
    ensures Tells(EventsOf(watched, observed, n), observed, n, at)
  {
    at := [];
    if n > 0 {
      var i, before := n - 1, EventsOf(watched, observed, n - 1);
      at := EventsTellChanges(watched, observed, i);
      if IsChange(observed, i) {
        TellsOneMore(before, observed, i, at, EventFor(watched, observed[i].name));
        at := at + [i];
      } else {
        TellsNoMore(before, observed, i, at);
      }
    }
  }

  lemma TellsOneMore(events: seq<RotationEvent>, observed: seq<Observation>, i: nat, at: seq<nat>, e: RotationEvent)
    requires i < |observed| && Tells(events, observed, i, at)
    requires IsChange(observed, i) && Names(e, observed[i].name)
    ensures Tells(events + [e], observed, i + 1, at + [i])
  {
    var more := at + [i];
    forall j: nat ensures j in more <==> j < i + 1 && IsChange(observed, j) {
      assert j in more <==> j in at || j == i;
    }
  }

  lemma TellsNoMore(events: seq<RotationEvent>, observed: seq<Observation>, i: nat, at: seq<nat>)
    requires i < |observed| && Tells(events, observed, i, at) && !IsChange(observed, i)
    ensures Tells(events, observed, i + 1, at)
  {
  }

  ghost predicate Remembers(versions: map<NamespacedName, string>, observed: seq<Observation>, n: nat)
    requires n <= |observed|
  {
    forall name :: LastVersion(observed, n, name) == if name in versions then Some(versions[name]) else None
  }

  class Watcher {
    const watched: Watched
    var versions: map<NamespacedName, string>
    var sent: seq<RotationEvent>

    constructor (watched: Watched)
      ensures this.watched == watched && versions == map[] && sent == []
    {
      this.watched := watched;
      versions, sent := map[], [];
    }

    method Observe(o: Observation)
      modifies this
      ensures o.deleting ==> versions == old(versions)
      ensures !o.deleting ==> versions == old(versions)[o.name := o.version]
      ensures sent == old(sent) +
                if !o.deleting && o.name in old(versions) && old(versions)[o.name] != o.version
                then [RotationEvent(o.name.name, o.name.namespace, KUBERNETES_SECRET + "/" + o.name.name)] else []
    {
      if o.deleting {
        return;
      }
      if o.name !in versions {
        versions := versions[o.name := o.version];
        return;
      }
      if o.version == versions[o.name] {
        return;
      }
      versions := versions[o.name := o.version];
      sent := sent + [EventFor(watched, o.name)];
    }

    /** The callback over a whole stream sends exactly the events of the specification. */
    method ObserveAll(observed: seq<Observation>)
      requires versions == map[] && sent == []
      modifies this
      ensures Remembers(versions, observed, |observed|)
      ensures sent == EventsOf(watched, observed, |observed|)
      ensures exists at :: Tells(sent, observed, |observed|, at)
    {
      for i := 0 to |observed|
        invariant Remembers(versions, observed, i)
        invariant sent == EventsOf(watched, observed, i)
      {
        assert LastVersion(observed, i, observed[i].name).Some? <==> observed[i].name in versions;
        Observe(observed[i]);
      }
      ghost var at := EventsTellChanges(watched, observed, |observed|);
    }
  }

  // The specification object by object.

  /** The versions in which an object was seen, without the observations of its deletion. */
  function VersionsSeen(observed: seq<Observation>, n: nat, name: NamespacedName): seq<string>
    requires n <= |observed|
  {
    if n == 0 then []
    else
      var o := observed[n - 1];
      VersionsSeen(observed, n - 1, name) + if o.name == name && !o.deleting then [o.version] else []
  }

  /** How often neighbouring versions differ. */
  function Changes(versions: seq<string>): nat {
    if |versions| < 2 then 0
    else
      var n := |versions|;
      Changes(versions[..n - 1]) + if versions[n - 1] != versions[n - 2] then 1 else 0
  }

  /** How many of the events are about that object. */
  function EventsAbout(events: seq<RotationEvent>, name: NamespacedName): nat {
    if events == [] then 0
    else
      var last := events[|events| - 1];
      EventsAbout(events[..|events| - 1], name)
      + if last.secretIdentifier == name.name && last.namespace == name.namespace then 1 else 0
  }

  lemma {:induction false} LastVersionIsLastSeen(observed: seq<Observation>, n: nat, name: NamespacedName)
    requires n <= |observed|
    ensures var seen := VersionsSeen(observed, n, name);
            LastVersion(observed, n, name) == if seen == [] then None else Some(seen[|seen| - 1])
  {
    if n > 0 {
      LastVersionIsLastSeen(observed, n - 1, name);
    }
  }

  lemma EventsAboutGrow(events: seq<RotationEvent>, x: RotationEvent, name: NamespacedName)
    ensures EventsAbout(events + [x], name) == EventsAbout(events, name) + if Names(x, name) then 1 else 0
  {
    assert (events + [x])[..|events|] == events;
  }

  lemma ChangesGrow(versions: seq<string>, v: string)
    ensures Changes(versions + [v]) ==
            Changes(versions) + if versions != [] && versions[|versions| - 1] != v then 1 else 0
  {
    assert (versions + [v])[..|versions|] == versions;
  }

  /** The events of an object number its version changes between consecutive observations: none
      for the first one, and observations of other objects or of deletions have no effect. */
  lemma {:induction false} EventsNumberChanges(watched: Watched, observed: seq<Observation>, n: nat, name: NamespacedName)
    requires n <= |observed|
    ensures EventsAbout(EventsOf(watched, observed, n), name) == Changes(VersionsSeen(observed, n, name))
  {
    if n > 0 {
      EventsNumberChanges(watched, observed, n - 1, name);
      EventStep(watched, observed, n, name);
      ChangeStep(observed, n, name);
    }
  }

  lemma EventStep(watched: Watched, observed: seq<Observation>, n: nat, name: NamespacedName)
    requires 0 < n <= |observed|
    ensures EventsAbout(EventsOf(watched, observed, n), name) ==
            EventsAbout(EventsOf(watched, observed, n - 1), name)
            + if observed[n - 1].name == name && IsChange(observed, n - 1) then 1 else 0
  {
    var before, o := EventsOf(watched, observed, n - 1), observed[n - 1];
    if IsChange(observed, n - 1) {
      EventsAboutGrow(before, EventFor(watched, o.name), name);
    } else {
      assert before + [] == before;
    }
  }

  lemma ChangeStep(observed: seq<Observation>, n: nat, name: NamespacedName)
    requires 0 < n <= |observed|
    ensures Changes(VersionsSeen(observed, n, name)) ==
            Changes(VersionsSeen(observed, n - 1, name))
            + if observed[n - 1].name == name && IsChange(observed, n - 1) then 1 else 0
  {
    var before, after, o := VersionsSeen(observed, n - 1, name), VersionsSeen(observed, n, name), observed[n - 1];
    if o.name == name && !o.deleting {
      assert after == before + [o.version];
      LastVersionIsLastSeen(observed, n - 1, name);
      assert IsChange(observed, n - 1) <==> before != [] && before[|before| - 1] != o.version;
      ChangesGrow(before, o.version);
    } else {
      assert after == before + [] == before;
    }
  }

  /** Two streams that show an object alike produce the same number of events for it. */
  lemma OtherObjectsHaveNoEffect(watched: Watched, a: seq<Observation>, b: seq<Observation>, name: NamespacedName)
    requires VersionsSeen(a, |a|, name) == VersionsSeen(b, |b|, name)
    ensures EventsAbout(EventsOf(watched, a, |a|), name) ==
            EventsAbout(EventsOf(watched, b, |b|), name)
  {
    EventsNumberChanges(watched, a, |a|, name);
    EventsNumberChanges(watched, b, |b|, name);
  }
}
