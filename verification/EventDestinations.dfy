/** What each kind of destination asks for when an event is handled, told by the fields of the
    destination and of the objects. */
module EventDestinations {
  import opened Api
  import opened Handlers
  import opened EventProcessing

  /** The destination aborts the event: the block of its kind is missing or the list call failed. */
  ghost predicate Aborts(env: Env, objects: Objects, event: Event, cache: seq<Destination>, i: nat)
    requires i < |cache| && ValidEnv(env, objects, event, cache)
  {
    DestinationJobs(env, objects, event, cache, i) == [Abort]
  }

  ghost predicate Asks(env: Env, objects: Objects, event: Event, cache: seq<Destination>, i: nat, ref: Ref)
    requires i < |cache| && ValidEnv(env, objects, event, cache)
  {
    Target(ref) in DestinationJobs(env, objects, event, cache, i)
  }

  /** A destination of type Deployment goes by its deployment block alone: it aborts without it, and
      otherwise asks for exactly the Deployments that the block watches and that refer to the secret,
      in the namespace of the event if that has one. */
  lemma DeploymentDestination(env: Env, objects: Objects, event: Event, cache: seq<Destination>, i: nat, ref: Ref)
    requires i < |cache| && ValidEnv(env, objects, event, cache) && cache[i].kind == "Deployment"
    ensures cache[i].deployment.None? || env.listing(i).None? ==> Aborts(env, objects, event, cache, i)
    ensures cache[i].deployment.Some? && env.listing(i).Some? ==>
              (Asks(env, objects, event, cache, i, ref) <==>
               && ref in objects && ref.kind == DeploymentKind
               && (event.namespace == "" || ref.namespace == event.namespace)
               && Watched(env.lookup, cache[i].deployment.value, objects[ref])
               && Refers(objects[ref].body, event.secretIdentifier))
  {
    if cache[i].deployment.Some? && env.listing(i).Some? {
      DestinationTargetsExact(env, objects, event, cache, i, ref);
    }
  }

  /** One of type ExternalSecret goes by its externalSecret block, in all namespaces; objects whose
      check panics are no targets. */
  lemma ExternalSecretDestination(env: Env, objects: Objects, event: Event, cache: seq<Destination>, i: nat, ref: Ref)
    requires i < |cache| && ValidEnv(env, objects, event, cache) && cache[i].kind == "ExternalSecret"
    ensures cache[i].externalSecret.None? || env.listing(i).None? ==> Aborts(env, objects, event, cache, i)
    ensures cache[i].externalSecret.Some? && env.listing(i).Some? ==>
              (Asks(env, objects, event, cache, i, ref) <==>
               && ref in objects && ref.kind == ExternalSecretKind
               && Watched(env.lookup, cache[i].externalSecret.value, objects[ref])
               && Refers(objects[ref].body, event.secretIdentifier)
               && !MeetsBadPattern(objects[ref].body, event.secretIdentifier))
  {
    if cache[i].externalSecret.Some? && env.listing(i).Some? {
      DestinationTargetsExact(env, objects, event, cache, i, ref);
    }
  }

  /** One of type PushSecret goes by its pushSecret block, in all namespaces. */
  lemma PushSecretDestination(env: Env, objects: Objects, event: Event, cache: seq<Destination>, i: nat, ref: Ref)
    requires i < |cache| && ValidEnv(env, objects, event, cache) && cache[i].kind == "PushSecret"
    ensures cache[i].pushSecret.None? || env.listing(i).None? ==> Aborts(env, objects, event, cache, i)
    ensures cache[i].pushSecret.Some? && env.listing(i).Some? ==>
              (Asks(env, objects, event, cache, i, ref) <==>
               && ref in objects && ref.kind == PushSecretKind
               && Watched(env.lookup, cache[i].pushSecret.value, objects[ref])
               && Refers(objects[ref].body, event.secretIdentifier))
  {
    if cache[i].pushSecret.Some? && env.listing(i).Some? {
      DestinationTargetsExact(env, objects, event, cache, i, ref);
    }
  }

  /** One of type WorkflowRunTemplate goes by its workflow block, in all namespaces, and asks for all
      that it watches. */
  lemma WorkflowDestination(env: Env, objects: Objects, event: Event, cache: seq<Destination>, i: nat, ref: Ref)
    requires i < |cache| && ValidEnv(env, objects, event, cache) && cache[i].kind == "WorkflowRunTemplate"
    ensures cache[i].workflow.None? || env.listing(i).None? ==> Aborts(env, objects, event, cache, i)
    ensures cache[i].workflow.Some? && env.listing(i).Some? ==>
              (Asks(env, objects, event, cache, i, ref) <==>
               && ref in objects && ref.kind == WorkflowKind
               && Watched(env.lookup, cache[i].workflow.value, objects[ref]))
  {
    if cache[i].workflow.Some? && env.listing(i).Some? {
      DestinationTargetsExact(env, objects, event, cache, i, ref);
    }
  }

  /** A destination of any other type is passed over. */
  lemma UnknownDestination(env: Env, objects: Objects, event: Event, cache: seq<Destination>, i: nat)
    requires i < |cache| && ValidEnv(env, objects, event, cache)
    requires cache[i].kind !in {"Deployment", "ExternalSecret", "PushSecret", "WorkflowRunTemplate"}
    ensures DestinationJobs(env, objects, event, cache, i) == []
  {
  }

  /** The criteria watch the object, by the block of its kind. */
  predicate WatchedBy(lookup: NamespaceLookup, criteria: Option<Criteria>, o: Object) {
    criteria.Some? && Watched(lookup, criteria.value, o)
  }

  /** What a destination wants, by its fields. */
  lemma WantsByFields(lookup: NamespaceLookup, objects: Objects, event: Event, d: Destination, ref: Ref)
    requires ref in objects
    ensures Wants(lookup, objects, event, d, ref) <==>
            && Refers(objects[ref].body, event.secretIdentifier)
            && match ref.kind
               case DeploymentKind =>
                 d.kind == "Deployment" && WatchedBy(lookup, d.deployment, objects[ref])
                 && (event.namespace == "" || ref.namespace == event.namespace)
               case ExternalSecretKind => d.kind == "ExternalSecret" && WatchedBy(lookup, d.externalSecret, objects[ref])
               case PushSecretKind => d.kind == "PushSecret" && WatchedBy(lookup, d.pushSecret, objects[ref])
               case WorkflowKind => d.kind == "WorkflowRunTemplate" && WatchedBy(lookup, d.workflow, objects[ref])
  {
  }

  /** An event that goes through updates a Deployment if and only if it refers to the secret, is in the
      namespace of the event, if that has one, and a cached destination of type Deployment watches it. */
  lemma DeploymentIsUpdatedIff(env: Env, objects: Objects, event: Event, cache: seq<Destination>, ref: Ref)
    requires ValidEnv(env, objects, event, cache) && Specified(env, objects, event, cache).outcome.Running?
    requires ref in objects && ref.kind == DeploymentKind
    ensures ref in Attempts(Specified(env, objects, event, cache).trace) <==>
            && Refers(objects[ref].body, event.secretIdentifier)
            && (event.namespace == "" || ref.namespace == event.namespace)
            && exists i :: 0 <= i < |cache| && cache[i].kind == "Deployment"
                           && WatchedBy(env.lookup, cache[i].deployment, objects[ref])
  {
    EventActsOn(env, objects, event, cache, ref);
    forall i | 0 <= i < |cache| ensures Wants(env.lookup, objects, event, cache[i], ref) <==>
      && Refers(objects[ref].body, event.secretIdentifier)
      && (event.namespace == "" || ref.namespace == event.namespace)
      && cache[i].kind == "Deployment" && WatchedBy(env.lookup, cache[i].deployment, objects[ref])
    {
      WantsByFields(env.lookup, objects, event, cache[i], ref);
    }
  }

  /** An event whose destination lacks the block of its kind fails, unless it failed or crashed before. */
  lemma MissingBlockFails(env: Env, objects: Objects, event: Event, cache: seq<Destination>, i: nat)
    requires i < |cache| && ValidEnv(env, objects, event, cache)
    requires || (cache[i].kind == "Deployment" && cache[i].deployment.None?)
             || (cache[i].kind == "ExternalSecret" && cache[i].externalSecret.None?)
             || (cache[i].kind == "PushSecret" && cache[i].pushSecret.None?)
             || (cache[i].kind == "WorkflowRunTemplate" && cache[i].workflow.None?)
    ensures !Specified(env, objects, event, cache).outcome.Running?
  {
    var groups := Asked(env, objects, event, cache);
    assert Abort in groups[i];
    InJoined(groups, |cache|, i, Abort);
    AttemptedIsTarget(env, objects, event, cache, Ref(DeploymentKind, "", ""));
  }

  // Every cluster has such list calls.

  lemma {:induction false} Order(refs: set<Ref>) returns (order: seq<Ref>)
    ensures Distinct(order) && forall ref :: ref in order <==> ref in refs
  {
    if refs == {} {
      order := [];
    } else {
      var ref :| ref in refs;
      var rest := Order(refs - {ref});
      order := rest + [ref];
      forall i | 0 <= i < |rest| ensures rest[i] != ref {
        assert rest[i] in rest;
      }
    }
  }

  lemma ListingOf(objects: Objects, event: Event, kind: Kind) returns (refs: seq<Ref>)
    ensures ValidListing(objects, event, kind, refs)
  {
    refs := Order(set ref | ref in objects && Listable(event, kind, ref));
  }

  /** Whatever the cluster holds, as long as every object is stored under its own reference with the
      body of its kind, and whatever the outside answers, list calls can succeed for all destinations:
      the results on events are about every cluster and every cache. */
  lemma EveryClusterCanBeListed(objects: Objects, event: Event, cache: seq<Destination>, lookup: NamespaceLookup,
                                updateOk: nat -> bool, rolloutOk: nat -> bool)
      returns (env: Env)
    requires forall ref :: ref in objects ==>
               && objects[ref].ref == ref
               && (objects[ref].body.DeploymentBody? <==> ref.kind == DeploymentKind)
               && (objects[ref].body.ExternalSecretBody? <==> ref.kind == ExternalSecretKind)
               && (objects[ref].body.PushSecretBody? <==> ref.kind == PushSecretKind)
               && (objects[ref].body.WorkflowBody? <==> ref.kind == WorkflowKind)
    ensures ValidEnv(env, objects, event, cache)
    ensures env.lookup == lookup && env.updateOk == updateOk && env.rolloutOk == rolloutOk
    ensures forall i: nat :: env.listing(i).Some?
  {
    var d := ListingOf(objects, event, DeploymentKind);
    var e := ListingOf(objects, event, ExternalSecretKind);
    var p := ListingOf(objects, event, PushSecretKind);
    var w := ListingOf(objects, event, WorkflowKind);
    var listing := (i: nat) =>
      if i >= |cache| then Some([])
      else match KindOf(cache[i])
        case None => Some([])
        case Some(DeploymentKind) => Some(d)
        case Some(ExternalSecretKind) => Some(e)
        case Some(PushSecretKind) => Some(p)
        case Some(WorkflowKind) => Some(w);
    env := Env(listing, lookup, updateOk, rolloutOk);
  }
}
