/** The objects that a rotation event may touch: which of them a destination watches, which
    refer to the rotated secret, and what an update writes. */
module Handlers {
  import opened Api

  type Labels = map<string, string>

  datatype Event = Event(secretIdentifier: string, rotationTimestamp: string, triggerSource: string, namespace: string)

  /** A label selector, or one that cannot be compiled. */
  datatype Selector = BadSelector | Selector(matches: Labels -> bool)

  datatype Criteria = Criteria(namespaceSelectors: seq<Selector>, labelSelector: Option<Selector>, names: seq<string>)

  datatype Destination = Destination(
    kind: string,
    deployment: Option<Criteria>,
    externalSecret: Option<Criteria>,
    pushSecret: Option<Criteria>,
    workflow: Option<Criteria>)

  const DEPLOYMENT := "Deployment"
  const EXTERNAL_SECRET := "ExternalSecret"
  const PUSH_SECRET := "PushSecret"
  const WORKFLOW := "WorkflowRunTemplate"

  /** The Secret and the ConfigMap that an entry refers to, if any. */
  datatype Source = Source(secret: Option<string>, configMap: Option<string>)

  datatype Container = Container(env: seq<Source>, envFrom: seq<Source>)

  /** A regular expression, or one that cannot be compiled. */
  datatype Pattern = BadPattern | Pattern(matches: string -> bool)

  datatype DataFrom = DataFrom(extractKey: Option<string>, findName: Option<Pattern>)

  datatype Kind = DeploymentKind | ExternalSecretKind | PushSecretKind | WorkflowKind

  datatype Ref = Ref(kind: Kind, namespace: string, name: string)

  /** `annotations` are those of the pod template for a Deployment and those of the object
      itself for the other kinds. */
  datatype Object = Object(ref: Ref, labels: Labels, annotations: map<string, string>, body: Body)

  datatype Body =
    | DeploymentBody(containers: seq<Container>)
    | ExternalSecretBody(dataKeys: seq<string>, dataFrom: seq<DataFrom>, templateFrom: seq<Source>)
    | PushSecretBody(selected: Option<string>, remoteKeys: seq<string>)
    | WorkflowBody

  // Watching.

  /** The labels of a namespace, None if they cannot be fetched. */
  type NamespaceLookup = string -> Option<Labels>

  predicate AllCompile(selectors: seq<Selector>) {
    forall i :: 0 <= i < |selectors| ==> selectors[i].Selector?
  }

  /** The check fails: a selector does not compile, or the labels of the namespace are needed and
      cannot be fetched. */
  predicate CheckFails(lookup: NamespaceLookup, c: Criteria, o: Object) {
    || !AllCompile(c.namespaceSelectors)
    || c.labelSelector == Some(BadSelector)
    || (c.namespaceSelectors != [] && lookup(o.ref.namespace).None?)
  }

  predicate AnySelects(selectors: seq<Selector>, labels: Labels) {
    exists i :: 0 <= i < |selectors| && selectors[i].Selector? && selectors[i].matches(labels)
  }

  /** The check succeeds, and an empty restriction or a match holds for namespace, labels and name. */
  predicate Watched(lookup: NamespaceLookup, c: Criteria, o: Object) {
    && !CheckFails(lookup, c, o)
    && (c.namespaceSelectors == [] || AnySelects(c.namespaceSelectors, lookup(o.ref.namespace).value))
    && (c.labelSelector.None? || c.labelSelector.value.matches(o.labels))
    && (c.names == [] || o.ref.name in c.names)
  }

  /** The decision for one object, None if it fails: the selectors are compiled first, then the
      namespace is fetched and the selectors are tried in turn. */
  method IsResourceWatched(lookup: NamespaceLookup, c: Criteria, o: Object) returns (watched: Option<bool>)
    ensures watched.None? <==> CheckFails(lookup, c, o)
    ensures watched == Some(true) <==> Watched(lookup, c, o)
  {
    var compiled := Compile(c.namespaceSelectors);
    if compiled.None? || c.labelSelector == Some(BadSelector) {
      return None;
    }
    var nameSet: set<string> := {};
    for i := 0 to |c.names|
      invariant nameSet == set name | name in c.names[..i]
    {
      assert c.names[..i + 1] == c.names[..i] + [c.names[i]];
      nameSet := nameSet + {c.names[i]};
    }
    assert c.names[..|c.names|] == c.names;
    var namespaceMatch := MatchesAnyNamespaceSelector(lookup, o.ref.namespace, compiled.value);
    if namespaceMatch.None? {
      return None;
    }
    var labelMatch := c.labelSelector.None? || c.labelSelector.value.matches(o.labels);
    var nameMatch := nameSet == {} || o.ref.name in nameSet;
    assert c.names != [] ==> c.names[0] in nameSet;
    return Some(namespaceMatch.value && labelMatch && nameMatch);
  }

  method Compile(selectors: seq<Selector>) returns (compiled: Option<seq<Selector>>)
    ensures compiled == if AllCompile(selectors) then Some(selectors) else None
  {
    var done: seq<Selector> := [];
    for i := 0 to |selectors|
      invariant done == selectors[..i] && AllCompile(done)
    {
      if selectors[i].BadSelector? {
        return None;
      }
      done := done + [selectors[i]];
    }
    assert done == selectors;
    return Some(done);
  }

  /** Whether one of the selectors picks the namespace, None if it could not be fetched. */
  method MatchesAnyNamespaceSelector(lookup: NamespaceLookup, namespace: string, selectors: seq<Selector>)
    returns (matched: Option<bool>)
    requires AllCompile(selectors)
    ensures matched.None? <==> selectors != [] && lookup(namespace).None?
    ensures matched.Some? ==> (matched.value <==> selectors == [] || AnySelects(selectors, lookup(namespace).value))
  {
    if selectors == [] {
      return Some(true);
    }
    var labels := lookup(namespace);
    if labels.None? {
      return None;
    }
    for i := 0 to |selectors|
      invariant !AnySelects(selectors[..i], labels.value)
    {
      if selectors[i].matches(labels.value) {
        return Some(true);
      }
    }
    assert selectors[..|selectors|] == selectors;
    return Some(false);
  }

  /** The loop of Filter over the listed objects; those whose check fails are left out. */
  method Filter(lookup: NamespaceLookup, c: Criteria, listed: seq<Object>) returns (objects: seq<Object>)
    ensures objects == Filtered(lookup, c, listed)
  {
    objects := [];
    for i := 0 to |listed|
      invariant objects == Filtered(lookup, c, listed[..i])
    {
      assert listed[..i + 1][..i] == listed[..i];
      var watched := IsResourceWatched(lookup, c, listed[i]);
      if watched == Some(true) {
        objects := objects + [listed[i]];
      }
    }
    assert listed[..|listed|] == listed;
  }

  function Filtered(lookup: NamespaceLookup, c: Criteria, listed: seq<Object>): seq<Object> {
    if listed == [] then []
    else
      var last := listed[|listed| - 1];
      Filtered(lookup, c, listed[..|listed| - 1]) + if Watched(lookup, c, last) then [last] else []
  }

  /** Filtering goes through the list from front to back and keeps what is watched. */
  lemma {:induction false} FilteredInOrder(lookup: NamespaceLookup, c: Criteria, a: seq<Object>, b: seq<Object>)
    ensures Filtered(lookup, c, a + b) == Filtered(lookup, c, a) + Filtered(lookup, c, b)
    ensures |b| == 1 ==> Filtered(lookup, c, b) == if Watched(lookup, c, b[0]) then b else []
  {
    if b == [] {
      assert a + b == a;
    } else {
      assert (a + b)[..|a + b| - 1] == a + b[..|b| - 1];
      FilteredInOrder(lookup, c, a, b[..|b| - 1]);
    }
  }

  // References.

  /** The check may crash on a pattern that does not compile. */
  datatype Reference = Yes | No | Crash

  predicate Mentions(s: Source, identifier: string) {
    s.secret == Some(identifier) || s.configMap == Some(identifier)
  }

  predicate AnyMentions(sources: seq<Source>, identifier: string) {
    exists i :: 0 <= i < |sources| && Mentions(sources[i], identifier)
  }

  predicate ContainsKey(c: Container, identifier: string) {
    AnyMentions(c.env, identifier) || AnyMentions(c.envFrom, identifier)
  }

  function ScanDataFrom(entries: seq<DataFrom>, i: nat, identifier: string): Reference
    requires i <= |entries|
    decreases |entries| - i
  {
    if i == |entries| then No
    else
      var entry := entries[i];
      if entry.extractKey == Some(identifier) then Yes
      else if entry.findName == Some(BadPattern) then Crash
      else if entry.findName.Some? && entry.findName.value.matches(identifier) then Yes
      else ScanDataFrom(entries, i + 1, identifier)
  }

  function References(body: Body, identifier: string): Reference {
    match body
    case DeploymentBody(containers) =>
      if exists i :: 0 <= i < |containers| && ContainsKey(containers[i], identifier) then Yes else No
    case ExternalSecretBody(dataKeys, dataFrom, templateFrom) =>
      if identifier in dataKeys then Yes
      else
        var scan := ScanDataFrom(dataFrom, 0, identifier);
        if !scan.No? then scan
        else if AnyMentions(templateFrom, identifier) then Yes else No
    case PushSecretBody(selected, remoteKeys) =>
      if selected == Some(identifier) || identifier in remoteKeys then Yes else No
    case WorkflowBody => Yes
  }

  predicate Matches(entry: DataFrom, identifier: string) {
    || entry.extractKey == Some(identifier)
    || (entry.findName.Some? && entry.findName.value.Pattern? && entry.findName.value.matches(identifier))
  }

  /** The scan crashes exactly when a pattern that does not compile comes before any match. */
  lemma {:induction false} ScanExact(entries: seq<DataFrom>, i: nat, identifier: string)
    requires i <= |entries|
    ensures ScanDataFrom(entries, i, identifier).Crash? <==>
            exists k :: i <= k < |entries| && FirstBad(entries, i, k, identifier)
    ensures ScanDataFrom(entries, i, identifier).No? <==>
            forall k :: i <= k < |entries| ==> !Matches(entries[k], identifier) && entries[k].findName != Some(BadPattern)
    decreases |entries| - i
  {
    if i < |entries| {
      ScanExact(entries, i + 1, identifier);
      if FirstBad(entries, i, i, identifier) {
        assert ScanDataFrom(entries, i, identifier).Crash?;
      } else if !Matches(entries[i], identifier) {
        var next := i + 1;
        if k :| next <= k < |entries| && FirstBad(entries, next, k, identifier) {
          assert FirstBad(entries, i, k, identifier);
        }
        if k :| i <= k < |entries| && FirstBad(entries, i, k, identifier) {
          assert FirstBad(entries, next, k, identifier);
        }
      }
    }
  }

  predicate FirstBad(entries: seq<DataFrom>, i: nat, k: nat, identifier: string)
    requires i <= k < |entries|
  {
    && entries[k].findName == Some(BadPattern) && entries[k].extractKey != Some(identifier)
    && forall j :: i <= j < k ==> !Matches(entries[j], identifier)
  }

  /** Some entry of the object refers to the secret; a workflow is triggered by every event. */
  predicate Refers(body: Body, identifier: string) {
    match body
    case DeploymentBody(containers) =>
      exists i :: 0 <= i < |containers| && ContainsKey(containers[i], identifier)
    case ExternalSecretBody(dataKeys, dataFrom, templateFrom) =>
      || identifier in dataKeys
      || (exists k :: 0 <= k < |dataFrom| && Matches(dataFrom[k], identifier))
      || AnyMentions(templateFrom, identifier)
    case PushSecretBody(selected, remoteKeys) =>
      selected == Some(identifier) || identifier in remoteKeys
    case WorkflowBody => true
  }

  /** No data key decides the check before it comes to a pattern that does not compile, and no
      dataFrom entry before that pattern does. */
  ghost predicate MeetsBadPattern(body: Body, identifier: string) {
    && body.ExternalSecretBody?
    && identifier !in body.dataKeys
    && exists k :: 0 <= k < |body.dataFrom| && FirstBad(body.dataFrom, 0, k, identifier)
  }

  /** The whole reference check, for every object: it crashes exactly when it meets a pattern that
      does not compile, and otherwise finds the object exactly if one of its entries refers to the
      secret, whatever the order of the checks. */
  lemma ReferencesExact(body: Body, identifier: string)
    ensures References(body, identifier).Crash? <==> MeetsBadPattern(body, identifier)
    ensures References(body, identifier).Yes? <==> Refers(body, identifier) && !MeetsBadPattern(body, identifier)
  {
    if body.ExternalSecretBody? {
      ScanExact(body.dataFrom, 0, identifier);
      if k :| 0 <= k < |body.dataFrom| && body.dataFrom[k].findName == Some(BadPattern) {
        assert (forall j :: 0 <= j < |body.dataFrom| ==> !Matches(body.dataFrom[j], identifier))
               ==> FirstBad(body.dataFrom, 0, k, identifier);
      }
    }
  }

  /** What refers to the secret, entry by entry: a Deployment by the environment of one of its
      containers, an ExternalSecret by a data key, by what it extracts or finds, or by a template, a
      PushSecret by what it selects or pushes to, each by Secret or ConfigMap where it names either;
      a workflow whatever it holds. */
  lemma RefersByEntries(body: Body, identifier: string)
    ensures body.DeploymentBody? ==>
              (Refers(body, identifier) <==>
               exists c, s :: c in body.containers && (s in c.env || s in c.envFrom)
                              && (s.secret == Some(identifier) || s.configMap == Some(identifier)))
    ensures body.ExternalSecretBody? ==>
              (Refers(body, identifier) <==>
               || identifier in body.dataKeys
               || (exists e :: e in body.dataFrom &&
                     (|| e.extractKey == Some(identifier)
                      || (e.findName.Some? && e.findName.value.Pattern? && e.findName.value.matches(identifier))))
               || (exists s :: s in body.templateFrom && (s.secret == Some(identifier) || s.configMap == Some(identifier))))
    ensures body.PushSecretBody? ==>
              (Refers(body, identifier) <==> body.selected == Some(identifier) || identifier in body.remoteKeys)
    ensures body.WorkflowBody? ==> Refers(body, identifier)
  {
    match body
    case DeploymentBody(containers) =>
      forall c | c in containers ensures ContainsKey(c, identifier) <==>
        exists s :: (s in c.env || s in c.envFrom) && (s.secret == Some(identifier) || s.configMap == Some(identifier))
      {
        AnyMentionsIff(c.env, identifier);
        AnyMentionsIff(c.envFrom, identifier);
      }
      if i :| 0 <= i < |containers| && ContainsKey(containers[i], identifier) {
        assert containers[i] in containers;
      }
    case ExternalSecretBody(_, dataFrom, templateFrom) =>
      AnyMentionsIff(templateFrom, identifier);
      if k :| 0 <= k < |dataFrom| && Matches(dataFrom[k], identifier) {
        assert dataFrom[k] in dataFrom;
      }
    case _ =>
  }

  lemma AnyMentionsIff(sources: seq<Source>, identifier: string)
    ensures AnyMentions(sources, identifier) <==>
            exists s :: s in sources && (s.secret == Some(identifier) || s.configMap == Some(identifier))
  {
    if i :| 0 <= i < |sources| && Mentions(sources[i], identifier) {
      assert sources[i] in sources;
    }
  }

  // Updating.

  function TimestampKey(kind: Kind): string {
    if kind.DeploymentKind? then "reloader.external-secrets.io/last-reloaded" else "reloader/last-rotated"
  }

  function TriggerKey(kind: Kind): string {
    if kind.DeploymentKind? then "reloader.external-secrets.io/trigger-source" else "reloader/trigger-source"
  }

  function Annotated(o: Object, event: Event): Object {
    o.(annotations := o.annotations[TimestampKey(o.ref.kind) := event.rotationTimestamp]
                                   [TriggerKey(o.ref.kind) := event.triggerSource])
  }

  /** The object but for its two reloader annotations. */
  function Essence(o: Object): Object {
    o.(annotations := o.annotations - {TimestampKey(o.ref.kind), TriggerKey(o.ref.kind)})
  }

  lemma KeysDiffer(kind: Kind)
    ensures TimestampKey(kind) != TriggerKey(kind)
  {
    assert |TimestampKey(kind)| != |TriggerKey(kind)|;
  }

  /** An update writes the two reloader annotations and changes nothing else; repeating it for
      the same event changes nothing more. */
  lemma AnnotatedExact(o: Object, event: Event)
    ensures Essence(Annotated(o, event)) == Essence(o)
    ensures Annotated(o, event).annotations.Keys ==
            o.annotations.Keys + {TimestampKey(o.ref.kind), TriggerKey(o.ref.kind)}
    ensures Annotated(o, event).annotations[TimestampKey(o.ref.kind)] == event.rotationTimestamp
    ensures Annotated(o, event).annotations[TriggerKey(o.ref.kind)] == event.triggerSource
    ensures Annotated(Annotated(o, event), event) == Annotated(o, event)
  {
    KeysDiffer(o.ref.kind);
  }

  /** The annotations by name: a Deployment's pod template has its own pair, all other objects share one. */
  lemma AnnotationsByKind(o: Object, event: Event)
    ensures o.ref.kind == DeploymentKind ==>
              Annotated(o, event) == o.(annotations := o.annotations
                ["reloader.external-secrets.io/last-reloaded" := event.rotationTimestamp]
                ["reloader.external-secrets.io/trigger-source" := event.triggerSource])
    ensures o.ref.kind in {ExternalSecretKind, PushSecretKind, WorkflowKind} ==>
              Annotated(o, event) == o.(annotations := o.annotations
                ["reloader/last-rotated" := event.rotationTimestamp]
                ["reloader/trigger-source" := event.triggerSource])
  {
  }

  /** Annotations decide neither what is watched nor what is referenced. */
  lemma EssenceDecides(lookup: NamespaceLookup, c: Criteria, a: Object, b: Object)
    requires Essence(a) == Essence(b)
    ensures Watched(lookup, c, a) == Watched(lookup, c, b)
    ensures a.ref == b.ref && a.body == b.body
  {
    assert Essence(a).ref == a.ref && Essence(b).ref == b.ref;
    assert Essence(a).labels == a.labels && Essence(b).labels == b.labels;
    assert Essence(a).body == a.body && Essence(b).body == b.body;
  }
}
