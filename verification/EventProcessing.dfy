/** Handling of one rotation event: destination by destination, object by object, against a
    specification that plans everything on the cluster as it was at the start. */
module EventProcessing {
  import opened Api
  import opened Handlers

  type Objects = map<Ref, Object>

  /** What one event can observe of the outside. `listing(i)` is the answer to the list call of
      destination `i`, None if it fails; `updateOk(n)` and `rolloutOk(n)` are the results of an
      update and of a rollout wait made when `n` actions have happened before. */
  datatype Env = Env(
    listing: nat -> Option<seq<Ref>>,
    lookup: NamespaceLookup,
    updateOk: nat -> bool,
    rolloutOk: nat -> bool)

  datatype Action = Updated(ref: Ref, ok: bool) | Waited(ref: Ref, ok: bool)

  datatype Outcome = Running | Failed | Crashed

  datatype Progress = Progress(objects: Objects, trace: seq<Action>, outcome: Outcome)

  // What each destination asks for.

  datatype Job = Skip | Target(ref: Ref) | Abort | Panic

  function KindOf(d: Destination): Option<Kind> {
    if d.kind == DEPLOYMENT then Some(DeploymentKind)
    else if d.kind == EXTERNAL_SECRET then Some(ExternalSecretKind)
    else if d.kind == PUSH_SECRET then Some(PushSecretKind)
    else if d.kind == WORKFLOW then Some(WorkflowKind)
    else None
  }

  function CriteriaOf(d: Destination): Option<Criteria> {
    if d.kind == DEPLOYMENT then d.deployment
    else if d.kind == EXTERNAL_SECRET then d.externalSecret
    else if d.kind == PUSH_SECRET then d.pushSecret
    else if d.kind == WORKFLOW then d.workflow
    else None
  }

  /** Deployments are listed in the namespace of the event, if it has one. */
  predicate Listable(event: Event, kind: Kind, ref: Ref) {
    ref.kind == kind && (kind.DeploymentKind? && event.namespace != "" ==> ref.namespace == event.namespace)
  }

  ghost predicate Distinct(refs: seq<Ref>) {
    forall i, j :: 0 <= i < j < |refs| ==> refs[i] != refs[j]
  }

  /** A list call returns each object of the kind once, in any order. */
  ghost predicate ValidListing(objects: Objects, event: Event, kind: Kind, refs: seq<Ref>) {
    && Distinct(refs)
    && forall ref :: ref in refs <==> ref in objects && Listable(event, kind, ref)
  }

  predicate HasKind(body: Body, kind: Kind) {
    match body
    case DeploymentBody(_) => kind.DeploymentKind?
    case ExternalSecretBody(_, _, _) => kind.ExternalSecretKind?
    case PushSecretBody(_, _) => kind.PushSecretKind?
    case WorkflowBody => kind.WorkflowKind?
  }

  /** Every object is stored under its own reference and has the body of its kind, and list calls
      answer truthfully. */
  ghost predicate ValidEnv(env: Env, objects: Objects, event: Event, cache: seq<Destination>) {
    && (forall ref :: ref in objects ==> objects[ref].ref == ref && HasKind(objects[ref].body, ref.kind))
    && (forall i: nat :: i < |cache| && KindOf(cache[i]).Some? && env.listing(i).Some?
                         ==> ValidListing(objects, event, KindOf(cache[i]).value, env.listing(i).value))
  }

  function JobFor(o: Object, event: Event): Job {
    match References(o.body, event.secretIdentifier)
    case Yes => Target(o.ref)
    case No => Skip
    case Crash => Panic
  }

  function JobsFor(objects: seq<Object>, event: Event): (jobs: seq<Job>)
    ensures |jobs| == |objects|
    ensures forall i :: 0 <= i < |objects| ==> jobs[i] == JobFor(objects[i], event)
  {
    seq(|objects|, i requires 0 <= i < |objects| => JobFor(objects[i], event))
  }

  function Fetch(objects: Objects, refs: seq<Ref>): (listed: seq<Object>)
    requires forall ref :: ref in refs ==> ref in objects
    ensures |listed| == |refs|
    ensures forall i :: 0 <= i < |refs| ==> listed[i] == objects[refs[i]]
  {
    seq(|refs|, i requires 0 <= i < |refs| => assert refs[i] in refs; objects[refs[i]])
  }

  /** The jobs of destination `i`, decided on the given cluster. */
  ghost function DestinationJobs(env: Env, objects: Objects, event: Event, cache: seq<Destination>, i: nat): seq<Job>
    requires i < |cache| && ValidEnv(env, objects, event, cache)
  {
    if KindOf(cache[i]).None? then []
    else if CriteriaOf(cache[i]).None? || env.listing(i).None? then [Abort]
    else JobsFor(Filtered(env.lookup, CriteriaOf(cache[i]).value, Fetch(objects, env.listing(i).value)), event)
  }

  /** The jobs of each destination. */
  ghost function Asked(env: Env, objects: Objects, event: Event, cache: seq<Destination>): (groups: seq<seq<Job>>)
    requires ValidEnv(env, objects, event, cache)
    ensures |groups| == |cache|
    ensures forall i :: 0 <= i < |cache| ==> groups[i] == DestinationJobs(env, objects, event, cache, i)
  {
    seq(|cache|, i requires 0 <= i < |cache| => DestinationJobs(env, objects, event, cache, i))
  }

  /** The jobs of the first `n` groups. */
  function Joined(groups: seq<seq<Job>>, n: nat): seq<Job>
    requires n <= |groups|
  {
    if n == 0 then [] else Joined(groups, n - 1) + groups[n - 1]
  }

  /** All jobs of the event, decided on the cluster as it is. */
  ghost function Plan(env: Env, objects: Objects, event: Event, cache: seq<Destination>): seq<Job>
    requires ValidEnv(env, objects, event, cache)
  {
    Joined(Asked(env, objects, event, cache), |cache|)
  }

  // Carrying out a plan.

  function DoTarget(env: Env, event: Event, p: Progress, ref: Ref): Progress {
    if ref !in p.objects then p
    else if !env.updateOk(|p.trace|) then p.(trace := p.trace + [Updated(ref, false)])
    else
      var done := !ref.kind.DeploymentKind? || env.rolloutOk(|p.trace| + 1);
      Progress(p.objects[ref := Annotated(p.objects[ref], event)],
               p.trace + [Updated(ref, true), Waited(ref, done)],
               if done then Running else Failed)
  }

  function DoJob(env: Env, event: Event, p: Progress, job: Job): Progress {
    if !p.outcome.Running? then p
    else
      match job
      case Skip => p
      case Target(ref) => DoTarget(env, event, p, ref)
      case Abort => p.(outcome := Failed)
      case Panic => p.(outcome := Crashed)
  }

  function DoJobs(env: Env, event: Event, p: Progress, jobs: seq<Job>): Progress {
    if jobs == [] then p
    else DoJob(env, event, DoJobs(env, event, p, jobs[..|jobs| - 1]), jobs[|jobs| - 1])
  }

  lemma {:induction false} DoJobsConcat(env: Env, event: Event, p: Progress, a: seq<Job>, b: seq<Job>)
    ensures DoJobs(env, event, p, a + b) == DoJobs(env, event, DoJobs(env, event, p, a), b)
  {
    if b == [] {
      assert a + b == a;
    } else {
      assert (a + b)[..|a + b| - 1] == a + b[..|b| - 1];
      DoJobsConcat(env, event, p, a, b[..|b| - 1]);
    }
  }

  lemma {:induction false} StoppedStaysStopped(env: Env, event: Event, p: Progress, jobs: seq<Job>)
    requires !p.outcome.Running?
    ensures DoJobs(env, event, p, jobs) == p
  {
    if jobs != [] {
      StoppedStaysStopped(env, event, p, jobs[..|jobs| - 1]);
    }
  }

  /** The cluster and the trace once the first `n` groups of jobs are carried out. */
  function AfterGroups(env: Env, event: Event, objects: Objects, groups: seq<seq<Job>>, n: nat): Progress
    requires n <= |groups|
  {
    DoJobs(env, event, Progress(objects, [], Running), Joined(groups, n))
  }

  lemma GroupStep(env: Env, event: Event, objects: Objects, groups: seq<seq<Job>>, i: nat)
    requires i < |groups|
    ensures AfterGroups(env, event, objects, groups, i + 1) ==
            DoJobs(env, event, AfterGroups(env, event, objects, groups, i), groups[i])
  {
    DoJobsConcat(env, event, Progress(objects, [], Running), Joined(groups, i), groups[i]);
  }

  /** Once every group is done or the event has stopped, the result stands. */
  lemma {:induction false} GroupsDecide(env: Env, event: Event, objects: Objects, groups: seq<seq<Job>>, i: nat)
    requires i <= |groups|
    requires i == |groups| || !AfterGroups(env, event, objects, groups, i).outcome.Running?
    ensures AfterGroups(env, event, objects, groups, |groups|) == AfterGroups(env, event, objects, groups, i)
    decreases |groups| - i
  {
    if i < |groups| {
      GroupStep(env, event, objects, groups, i);
      StoppedStaysStopped(env, event, AfterGroups(env, event, objects, groups, i), groups[i]);
      GroupsDecide(env, event, objects, groups, i + 1);
    }
  }

  /** The simple specification of an event: plan on the cluster as it is, then work through it. */
  ghost function Specified(env: Env, objects: Objects, event: Event, cache: seq<Destination>): Progress
    requires ValidEnv(env, objects, event, cache)
  {
    DoJobs(env, event, Progress(objects, [], Running), Plan(env, objects, event, cache))
  }

  // Updates do not change later decisions.

  ghost predicate SameEssence(a: Objects, b: Objects) {
    && a.Keys == b.Keys
    && forall ref :: ref in a ==> Essence(a[ref]) == Essence(b[ref])
  }

  lemma SameEssenceSameEnv(env: Env, a: Objects, b: Objects, event: Event, cache: seq<Destination>)
    requires SameEssence(a, b) && ValidEnv(env, a, event, cache)
    ensures ValidEnv(env, b, event, cache)
  {
    forall ref | ref in b ensures b[ref].ref == ref && HasKind(b[ref].body, ref.kind) {
      assert Essence(a[ref]).ref == Essence(b[ref]).ref && Essence(a[ref]).body == Essence(b[ref]).body;
    }
    forall i: nat | i < |cache| && KindOf(cache[i]).Some? && env.listing(i).Some?
      ensures ValidListing(b, event, KindOf(cache[i]).value, env.listing(i).value)
    {
      assert ValidListing(a, event, KindOf(cache[i]).value, env.listing(i).value);
    }
  }

  ghost predicate AllSameEssence(a: seq<Object>, b: seq<Object>) {
    |a| == |b| && forall i :: 0 <= i < |a| ==> Essence(a[i]) == Essence(b[i])
  }

  lemma {:induction false} FilteredAlike(lookup: NamespaceLookup, c: Criteria, a: seq<Object>, b: seq<Object>)
    requires AllSameEssence(a, b)
    ensures AllSameEssence(Filtered(lookup, c, a), Filtered(lookup, c, b))
  {
    if a != [] {
      var n := |a| - 1;
      FilteredAlike(lookup, c, a[..n], b[..n]);
      EssenceDecides(lookup, c, a[n], b[n]);
    }
  }

  lemma JobsAlike(lookup: NamespaceLookup, c: Criteria, a: seq<Object>, b: seq<Object>, event: Event)
    requires AllSameEssence(a, b)
    ensures JobsFor(a, event) == JobsFor(b, event)
  {
    forall i | 0 <= i < |a| ensures JobFor(a[i], event) == JobFor(b[i], event) {
      EssenceDecides(lookup, c, a[i], b[i]);
    }
  }

  /** A destination asks for the same on two clusters that differ in reloader annotations only. */
  lemma DestinationJobsAlike(env: Env, a: Objects, b: Objects, event: Event, cache: seq<Destination>, i: nat)
    requires i < |cache| && SameEssence(a, b)
    requires ValidEnv(env, a, event, cache) && ValidEnv(env, b, event, cache)
    ensures DestinationJobs(env, a, event, cache, i) == DestinationJobs(env, b, event, cache, i)
  {
    if KindOf(cache[i]).Some? && CriteriaOf(cache[i]).Some? && env.listing(i).Some? {
      var c, refs := CriteriaOf(cache[i]).value, env.listing(i).value;
      var la, lb := Fetch(a, refs), Fetch(b, refs);
      assert AllSameEssence(la, lb) by {
        forall k | 0 <= k < |refs| ensures Essence(la[k]) == Essence(lb[k]) {
          assert refs[k] in refs;
        }
      }
      FilteredAlike(env.lookup, c, la, lb);
      JobsAlike(env.lookup, c, Filtered(env.lookup, c, la), Filtered(env.lookup, c, lb), event);
    }
  }

  lemma {:induction false} JobsKeepEssence(env: Env, event: Event, p: Progress, jobs: seq<Job>)
    requires forall ref :: ref in p.objects ==> p.objects[ref].ref == ref
    ensures SameEssence(p.objects, DoJobs(env, event, p, jobs).objects)
  {
    if jobs != [] {
      JobsKeepEssence(env, event, p, jobs[..|jobs| - 1]);
      var q, job := DoJobs(env, event, p, jobs[..|jobs| - 1]), jobs[|jobs| - 1];
      if job.Target? && job.ref in q.objects {
        AnnotatedExact(q.objects[job.ref], event);
      }
    }
  }

  // The code.

  ghost predicate DistinctObjects(objects: seq<Object>) {
    forall j, k :: 0 <= j < k < |objects| ==> objects[j].ref != objects[k].ref
  }

  /** The objects from position `j` on are still as they were read. */
  ghost predicate UpToDate(cluster: Objects, objects: seq<Object>, j: nat) {
    forall k :: j <= k < |objects| ==> objects[k].ref in cluster && cluster[objects[k].ref] == objects[k]
  }

  lemma {:induction false} FilteredSelects(lookup: NamespaceLookup, c: Criteria, listed: seq<Object>)
    requires DistinctObjects(listed)
    ensures DistinctObjects(Filtered(lookup, c, listed))
    ensures forall o :: o in Filtered(lookup, c, listed) <==> o in listed && Watched(lookup, c, o)
  {
    if listed != [] {
      var init, last := listed[..|listed| - 1], listed[|listed| - 1];
      FilteredSelects(lookup, c, init);
      assert listed == init + [last];
      var before := Filtered(lookup, c, init);
      forall j | 0 <= j < |before| ensures before[j].ref != last.ref {
        assert before[j] in before && before[j] in init;
      }
    }
  }

  lemma ListedIsUpToDate(env: Env, objects: Objects, event: Event, cache: seq<Destination>, i: nat)
    requires i < |cache| && ValidEnv(env, objects, event, cache)
    requires KindOf(cache[i]).Some? && CriteriaOf(cache[i]).Some? && env.listing(i).Some?
    ensures var found := Filtered(env.lookup, CriteriaOf(cache[i]).value, Fetch(objects, env.listing(i).value));
            DistinctObjects(found) && UpToDate(objects, found, 0)
  {
    var refs := env.listing(i).value;
    var listed := Fetch(objects, refs);
    assert ValidListing(objects, event, KindOf(cache[i]).value, refs);
    assert forall j :: 0 <= j < |refs| ==> refs[j] in refs && listed[j].ref == refs[j];
    FilteredSelects(env.lookup, CriteriaOf(cache[i]).value, listed);
    var found := Filtered(env.lookup, CriteriaOf(cache[i]).value, listed);
    forall k | 0 <= k < |found| ensures found[k].ref in objects && objects[found[k].ref] == found[k] {
      assert found[k] in found && found[k] in listed;
    }
  }

  class Cluster {
    var objects: Objects

    constructor (objects: Objects)
      ensures this.objects == objects
    {
      this.objects := objects;
    }
  }

  class EventHandler {
    const cluster: Cluster
    var cache: seq<Destination>

    constructor (cluster: Cluster)
      ensures this.cluster == cluster && cache == []
    {
      this.cluster := cluster;
      cache := [];
    }

    /** The destinations given last replace all others. */
    method UpdateDestinationsToWatch(watch: seq<Destination>)
      modifies this
      ensures cache == watch
    {
      cache := watch;
    }

    method HandleEvent(env: Env, event: Event) returns (outcome: Outcome, trace: seq<Action>)
      requires ValidEnv(env, cluster.objects, event, cache)
      modifies cluster
      ensures Progress(cluster.objects, trace, outcome) == Specified(env, old(cluster.objects), event, cache)
    {
      var destinations := cache;
      ghost var before := cluster.objects;
      ghost var groups := Asked(env, before, event, destinations);
      outcome, trace := Running, [];
      var i := 0;
      while i < |destinations| && outcome.Running?
        invariant i <= |destinations|
        invariant Progress(cluster.objects, trace, outcome) == AfterGroups(env, event, before, groups, i)
      {
        NextDestination(env, before, event, destinations, i);
        outcome, trace := HandleDestination(env, event, destinations, i, trace);
        i := i + 1;
      }
      GroupsDecide(env, event, before, groups, i);
    }

    /** One turn of the outer loop. */
    method HandleDestination(env: Env, event: Event, destinations: seq<Destination>, i: nat, earlier: seq<Action>)
      returns (outcome: Outcome, trace: seq<Action>)
      requires i < |destinations| && ValidEnv(env, cluster.objects, event, destinations)
      modifies cluster
      ensures Progress(cluster.objects, trace, outcome) ==
              DoJobs(env, event, Progress(old(cluster.objects), earlier, Running),
                     DestinationJobs(env, old(cluster.objects), event, destinations, i))
    {
      outcome, trace := Running, earlier;
      var criteria := CriteriaOf(destinations[i]);
      if KindOf(destinations[i]).None? {
        return;
      }
      assert [Abort][..0] == [];
      if criteria.None? || env.listing(i).None? {
        outcome := Failed;
        return;
      }
      ListedIsUpToDate(env, cluster.objects, event, destinations, i);
      var objects := Filter(env.lookup, criteria.value, Fetch(cluster.objects, env.listing(i).value));
      outcome, trace := HandleObjects(env, event, objects, earlier);
    }

    /** The inner loop over the filtered objects. */
    method HandleObjects(env: Env, event: Event, objects: seq<Object>, earlier: seq<Action>)
      returns (outcome: Outcome, trace: seq<Action>)
      requires DistinctObjects(objects) && UpToDate(cluster.objects, objects, 0)
      modifies cluster
      ensures Progress(cluster.objects, trace, outcome) ==
              DoJobs(env, event, Progress(old(cluster.objects), earlier, Running), JobsFor(objects, event))
    {
      outcome, trace := Running, earlier;
      ghost var jobs := JobsFor(objects, event);
      ghost var start := Progress(cluster.objects, earlier, Running);
      var j := 0;
      while j < |objects| && outcome.Running?
        invariant j <= |objects| && UpToDate(cluster.objects, objects, j)
        invariant Progress(cluster.objects, trace, outcome) == DoJobs(env, event, start, jobs[..j])
      {
        assert jobs[..j + 1][..j] == jobs[..j];
        outcome, trace := HandleObject(env, event, objects[j], trace);
        j := j + 1;
      }
      JobsDone(env, event, start, jobs, j);
    }

    /** The body of the inner loop: check the reference, update, wait. */
    method HandleObject(env: Env, event: Event, o: Object, earlier: seq<Action>)
      returns (outcome: Outcome, trace: seq<Action>)
      requires o.ref in cluster.objects && cluster.objects[o.ref] == o
      modifies cluster
      ensures Progress(cluster.objects, trace, outcome) ==
              DoJob(env, event, Progress(old(cluster.objects), earlier, Running), JobFor(o, event))
      ensures forall ref :: ref in old(cluster.objects) && ref != o.ref
                            ==> ref in cluster.objects && cluster.objects[ref] == old(cluster.objects)[ref]
    {
      outcome, trace := Running, earlier;
      var reference := References(o.body, event.secretIdentifier);
      if reference.Crash? {
        outcome := Crashed;
        return;
      }
      if reference.No? {
        return;
      }
      var ok := env.updateOk(|trace|);
      trace := trace + [Updated(o.ref, ok)];
      if !ok {
        return;
      }
      cluster.objects := cluster.objects[o.ref := Annotated(o, event)];
      var done := !o.ref.kind.DeploymentKind? || env.rolloutOk(|trace|);
      trace := trace + [Waited(o.ref, done)];
      if !done {
        outcome := Failed;
      }
    }
  }

  /** A finished or stopped prefix of the jobs decides the whole. */
  lemma JobsDone(env: Env, event: Event, start: Progress, jobs: seq<Job>, j: nat)
    requires j <= |jobs|
    requires j == |jobs| || !DoJobs(env, event, start, jobs[..j]).outcome.Running?
    ensures DoJobs(env, event, start, jobs) == DoJobs(env, event, start, jobs[..j])
  {
    assert jobs == jobs[..j] + jobs[j..];
    DoJobsConcat(env, event, start, jobs[..j], jobs[j..]);
    if j < |jobs| {
      StoppedStaysStopped(env, event, DoJobs(env, event, start, jobs[..j]), jobs[j..]);
    }
  }

  /** The next destination asks the cluster as it has become for what the plan says. */
  lemma NextDestination(env: Env, objects: Objects, event: Event, cache: seq<Destination>, i: nat)
    requires i < |cache| && ValidEnv(env, objects, event, cache)
    ensures var groups := Asked(env, objects, event, cache);
            var p := AfterGroups(env, event, objects, groups, i);
            && ValidEnv(env, p.objects, event, cache)
            && AfterGroups(env, event, objects, groups, i + 1) ==
               DoJobs(env, event, p, DestinationJobs(env, p.objects, event, cache, i))
  {
    var groups := Asked(env, objects, event, cache);
    var p := AfterGroups(env, event, objects, groups, i);
    JobsKeepEssence(env, event, Progress(objects, [], Running), Joined(groups, i));
    SameEssenceSameEnv(env, objects, p.objects, event, cache);
    DestinationJobsAlike(env, objects, p.objects, event, cache, i);
    GroupStep(env, event, objects, groups, i);
  }

  // What the specification promises.

  /** The objects that the jobs want updated, in order. */
  function Targets(jobs: seq<Job>): seq<Ref> {
    if jobs == [] then []
    else
      var last := jobs[|jobs| - 1];
      Targets(jobs[..|jobs| - 1]) + if last.Target? then [last.ref] else []
  }

  /** The objects for which an update was attempted, in order. */
  function Attempts(trace: seq<Action>): seq<Ref> {
    if trace == [] then []
    else
      var last := trace[|trace| - 1];
      Attempts(trace[..|trace| - 1]) + if last.Updated? then [last.ref] else []
  }

  /** Nothing in the jobs aborts or crashes the event by itself. */
  predicate Harmless(jobs: seq<Job>) {
    forall k :: 0 <= k < |jobs| ==> !jobs[k].Abort? && !jobs[k].Panic?
  }

  predicate NoFailedWait(trace: seq<Action>) {
    forall n :: 0 <= n < |trace| ==> !(trace[n].Waited? && !trace[n].ok)
  }

  ghost predicate TargetsKnown(objects: Objects, jobs: seq<Job>) {
    forall k :: 0 <= k < |jobs| && jobs[k].Target? ==> jobs[k].ref in objects
  }

  lemma AttemptsAppend(trace: seq<Action>, a: Action)
    ensures Attempts(trace + [a]) == Attempts(trace) + if a.Updated? then [a.ref] else []
  {
    assert (trace + [a])[..|trace|] == trace;
  }

  lemma AttemptsOfTarget(env: Env, event: Event, p: Progress, ref: Ref)
    requires ref in p.objects
    ensures Attempts(DoTarget(env, event, p, ref).trace) == Attempts(p.trace) + [ref]
  {
    var done := !ref.kind.DeploymentKind? || env.rolloutOk(|p.trace| + 1);
    AttemptsAppend(p.trace, Updated(ref, false));
    AttemptsAppend(p.trace, Updated(ref, true));
    AttemptsAppend(p.trace + [Updated(ref, true)], Waited(ref, done));
    assert p.trace + [Updated(ref, true)] + [Waited(ref, done)] == p.trace + [Updated(ref, true), Waited(ref, done)];
    assert Attempts(p.trace) + [ref] + [] == Attempts(p.trace) + [ref];
  }

  /** The attempted updates are the wanted ones, in order and without a gap, up to the first
      aborting error; the event goes through exactly if there is none. */
  lemma {:induction false} AttemptsFollowPlan(env: Env, event: Event, objects: Objects, jobs: seq<Job>)
    requires TargetsKnown(objects, jobs) && forall ref :: ref in objects ==> objects[ref].ref == ref
    ensures var p := DoJobs(env, event, Progress(objects, [], Running), jobs);
            && p.objects.Keys == objects.Keys
            && Attempts(p.trace) <= Targets(jobs)
            && (p.outcome.Running? ==> Attempts(p.trace) == Targets(jobs))
            && (p.outcome.Running? <==> Harmless(jobs) && NoFailedWait(p.trace))
  {
    if jobs != [] {
      var init, job := jobs[..|jobs| - 1], jobs[|jobs| - 1];
      AttemptsFollowPlan(env, event, objects, init);
      var q := DoJobs(env, event, Progress(objects, [], Running), init);
      AttemptsStep(env, event, q, init, job);
      assert init + [job] == jobs;
    }
  }

  lemma AttemptsStep(env: Env, event: Event, q: Progress, init: seq<Job>, job: Job)
    requires job.Target? ==> job.ref in q.objects
    requires Attempts(q.trace) <= Targets(init)
    requires q.outcome.Running? ==> Attempts(q.trace) == Targets(init)
    requires q.outcome.Running? <==> Harmless(init) && NoFailedWait(q.trace)
    ensures var p, jobs := DoJob(env, event, q, job), init + [job];
            && p.objects.Keys == q.objects.Keys
            && Attempts(p.trace) <= Targets(jobs)
            && (p.outcome.Running? ==> Attempts(p.trace) == Targets(jobs))
            && (p.outcome.Running? <==> Harmless(jobs) && NoFailedWait(p.trace))
  {
    var p, jobs := DoJob(env, event, q, job), init + [job];
    assert jobs[..|jobs| - 1] == init;
    assert Harmless(jobs) <==> Harmless(init) && !job.Abort? && !job.Panic? by {
      assert forall k :: 0 <= k < |init| ==> jobs[k] == init[k];
      assert jobs[|init|] == job;
    }
    if job.Target? && q.outcome.Running? {
      AttemptsOfTarget(env, event, q, job.ref);
      NoFailedWaitStep(env, event, q, job.ref);
    }
  }

  lemma NoFailedWaitStep(env: Env, event: Event, q: Progress, ref: Ref)
    requires ref in q.objects && NoFailedWait(q.trace) && q.outcome.Running?
    ensures DoTarget(env, event, q, ref).outcome.Running? <==> NoFailedWait(DoTarget(env, event, q, ref).trace)
    ensures DoTarget(env, event, q, ref).objects.Keys == q.objects.Keys
  {
    var p := DoTarget(env, event, q, ref);
    var last := p.trace[|p.trace| - 1];
    assert NoFailedWait(p.trace) <==> !(last.Waited? && !last.ok);
  }

  /** The work stopped at job `k`: every target up to it was attempted and every earlier wait
      succeeded, and job `k` itself aborted, crashed or failed its wait. */
  predicate StopsAt(p: Progress, jobs: seq<Job>, k: nat)
    requires k < |jobs|
  {
    && Harmless(jobs[..k])
    && Attempts(p.trace) == Targets(jobs[..k + 1])
    && match jobs[k]
       case Skip => false
       case Abort => p.outcome.Failed? && NoFailedWait(p.trace)
       case Panic => p.outcome.Crashed? && NoFailedWait(p.trace)
       case Target(ref) =>
         && p.outcome.Failed?
         && p.trace != [] && p.trace[|p.trace| - 1] == Waited(ref, false)
         && NoFailedWait(p.trace[..|p.trace| - 1])
  }

  /** An event that does not go through has a stopping point. */
  lemma {:induction false} StoppingPoint(env: Env, event: Event, objects: Objects, jobs: seq<Job>) returns (k: nat)
    requires TargetsKnown(objects, jobs) && forall ref :: ref in objects ==> objects[ref].ref == ref
    requires !DoJobs(env, event, Progress(objects, [], Running), jobs).outcome.Running?
    ensures k < |jobs| && StopsAt(DoJobs(env, event, Progress(objects, [], Running), jobs), jobs, k)
  {
    var init, job := jobs[..|jobs| - 1], jobs[|jobs| - 1];
    var q := DoJobs(env, event, Progress(objects, [], Running), init);
    if q.outcome.Running? {
      k := |init|;
      AttemptsFollowPlan(env, event, objects, init);
      assert jobs[..k + 1] == jobs;
      StopsHere(env, event, q, init, job);
      assert init + [job] == jobs;
    } else {
      k := StoppingPoint(env, event, objects, init);
      assert jobs[..k] == init[..k] && jobs[..k + 1] == init[..k + 1];
    }
  }

  lemma StopsHere(env: Env, event: Event, q: Progress, init: seq<Job>, job: Job)
    requires q.outcome.Running? && Harmless(init) && NoFailedWait(q.trace) && Attempts(q.trace) == Targets(init)
    requires job.Target? ==> job.ref in q.objects
    requires !DoJob(env, event, q, job).outcome.Running?
    ensures StopsAt(DoJob(env, event, q, job), init + [job], |init|)
  {
    var jobs := init + [job];
    assert jobs[..|init|] == init && jobs[..|init| + 1] == jobs;
    TargetsAppend(init, job);
    if job.Target? {
      FailsItsWait(env, event, q, job.ref);
    } else {
      assert Targets(init) + [] == Targets(init);
    }
  }

  lemma TargetsAppend(init: seq<Job>, job: Job)
    ensures Targets(init + [job]) == Targets(init) + if job.Target? then [job.ref] else []
  {
    assert (init + [job])[..|init|] == init;
  }

  lemma FailsItsWait(env: Env, event: Event, q: Progress, ref: Ref)
    requires q.outcome.Running? && NoFailedWait(q.trace) && ref in q.objects
    requires !DoTarget(env, event, q, ref).outcome.Running?
    ensures var p := DoTarget(env, event, q, ref);
            && p.outcome.Failed? && Attempts(p.trace) == Attempts(q.trace) + [ref]
            && p.trace != [] && p.trace[|p.trace| - 1] == Waited(ref, false)
            && NoFailedWait(p.trace[..|p.trace| - 1])
  {
    AttemptsOfTarget(env, event, q, ref);
    var p := DoTarget(env, event, q, ref);
    assert p.trace[..|p.trace| - 1] == q.trace + [Updated(ref, true)];
    UpdatesFailNoWait(q.trace, Updated(ref, true));
  }

  lemma UpdatesFailNoWait(trace: seq<Action>, a: Action)
    requires NoFailedWait(trace) && a.Updated?
    ensures NoFailedWait(trace + [a])
  {
  }

  /** The trace tells what the outside answered. */
  predicate Truthful(env: Env, trace: seq<Action>) {
    forall n :: 0 <= n < |trace| ==>
      trace[n].ok == if trace[n].Updated? then env.updateOk(n)
                     else !trace[n].ref.kind.DeploymentKind? || env.rolloutOk(n)
  }

  lemma {:induction false} TraceIsTruthful(env: Env, event: Event, objects: Objects, jobs: seq<Job>)
    ensures Truthful(env, DoJobs(env, event, Progress(objects, [], Running), jobs).trace)
  {
    if jobs != [] {
      TraceIsTruthful(env, event, objects, jobs[..|jobs| - 1]);
      var q, job := DoJobs(env, event, Progress(objects, [], Running), jobs[..|jobs| - 1]), jobs[|jobs| - 1];
      if job.Target? {
        TruthfulStep(env, event, q, job.ref);
      }
    }
  }

  lemma TruthfulStep(env: Env, event: Event, q: Progress, ref: Ref)
    requires Truthful(env, q.trace)
    ensures Truthful(env, DoTarget(env, event, q, ref).trace)
  {
  }

  /** Exactly the objects whose update succeeded change, and they get the two annotations. */
  lemma {:induction false} OnlyUpdatedChange(env: Env, event: Event, objects: Objects, jobs: seq<Job>)
    requires TargetsKnown(objects, jobs) && forall ref :: ref in objects ==> objects[ref].ref == ref
    ensures var p := DoJobs(env, event, Progress(objects, [], Running), jobs);
            && p.objects.Keys == objects.Keys
            && forall ref :: ref in objects ==>
                 p.objects[ref] == if Updated(ref, true) in p.trace then Annotated(objects[ref], event) else objects[ref]
  {
    if jobs != [] {
      var init, job := jobs[..|jobs| - 1], jobs[|jobs| - 1];
      OnlyUpdatedChange(env, event, objects, init);
      var q := DoJobs(env, event, Progress(objects, [], Running), init);
      if job.Target? && q.outcome.Running? {
        ChangeStep(env, event, objects, q, job.ref);
      }
    }
  }

  lemma ChangeStep(env: Env, event: Event, objects: Objects, q: Progress, target: Ref)
    requires q.objects.Keys == objects.Keys && target in objects
    requires forall ref :: ref in objects ==>
               q.objects[ref] == if Updated(ref, true) in q.trace then Annotated(objects[ref], event) else objects[ref]
    ensures var p := DoTarget(env, event, q, target);
            && p.objects.Keys == objects.Keys
            && forall ref :: ref in objects ==>
                 p.objects[ref] == if Updated(ref, true) in p.trace then Annotated(objects[ref], event) else objects[ref]
  {
    var p := DoTarget(env, event, q, target);
    AnnotatedExact(objects[target], event);
    forall ref | ref in objects
      ensures Updated(ref, true) in p.trace <==>
              Updated(ref, true) in q.trace || (ref == target && env.updateOk(|q.trace|))
    {
      if ref == target && env.updateOk(|q.trace|) {
        assert p.trace[|q.trace|] == Updated(ref, true);
      }
    }
  }

  /** Each successful update is followed at once by the wait for the same object, nothing
      happens between a wait and its update, and a failed wait is the last action. */
  predicate Sequential(trace: seq<Action>) {
    forall n :: 0 <= n < |trace| ==> InSequence(trace, n)
  }

  predicate InSequence(trace: seq<Action>, n: nat)
    requires n < |trace|
  {
    match trace[n]
    case Updated(ref, ok) => ok ==> n + 1 < |trace| && trace[n + 1].Waited? && trace[n + 1].ref == ref
    case Waited(ref, ok) => n > 0 && trace[n - 1] == Updated(ref, true) && (!ok ==> n == |trace| - 1)
  }

  /** Sequential rollout, in the trace of every event. */
  lemma {:induction false} RolloutIsSequential(env: Env, event: Event, objects: Objects, jobs: seq<Job>)
    ensures var p := DoJobs(env, event, Progress(objects, [], Running), jobs);
            && Sequential(p.trace)
            && (p.outcome.Running? ==> NoFailedWait(p.trace))
  {
    if jobs != [] {
      var init, job := jobs[..|jobs| - 1], jobs[|jobs| - 1];
      RolloutIsSequential(env, event, objects, init);
      var q := DoJobs(env, event, Progress(objects, [], Running), init);
      if job.Target? && job.ref in q.objects && q.outcome.Running? {
        SequentialStep(env, event, q, job.ref);
      }
    }
  }

  lemma SequentialStep(env: Env, event: Event, q: Progress, ref: Ref)
    requires ref in q.objects && Sequential(q.trace) && NoFailedWait(q.trace) && q.outcome.Running?
    ensures Sequential(DoTarget(env, event, q, ref).trace)
    ensures DoTarget(env, event, q, ref).outcome.Running? ==> NoFailedWait(DoTarget(env, event, q, ref).trace)
  {
    var p := DoTarget(env, event, q, ref);
    NoFailedWaitStep(env, event, q, ref);
    forall n | 0 <= n < |p.trace| ensures InSequence(p.trace, n) {
      if n < |q.trace| {
        assert InSequence(q.trace, n) && p.trace[n] == q.trace[n];
        assert q.trace[n].Waited? ==> p.trace[n - 1] == q.trace[n - 1] && q.trace[n].ok;
      }
    }
  }

  /** A destination wants updated exactly the listable objects of its kind that it watches and
      that refer to the rotated secret. */
  lemma DestinationTargetsExact(env: Env, objects: Objects, event: Event, cache: seq<Destination>, i: nat, ref: Ref)
    requires i < |cache| && ValidEnv(env, objects, event, cache)
    requires KindOf(cache[i]).Some? && CriteriaOf(cache[i]).Some? && env.listing(i).Some?
    ensures Target(ref) in DestinationJobs(env, objects, event, cache, i) <==>
            && ref in objects
            && Listable(event, KindOf(cache[i]).value, ref)
            && Watched(env.lookup, CriteriaOf(cache[i]).value, objects[ref])
            && Refers(objects[ref].body, event.secretIdentifier)
            && !MeetsBadPattern(objects[ref].body, event.secretIdentifier)
  {
    if ref in objects {
      ReferencesExact(objects[ref].body, event.secretIdentifier);
    }
    var refs, c := env.listing(i).value, CriteriaOf(cache[i]).value;
    var listed := Fetch(objects, refs);
    var found := Filtered(env.lookup, c, listed);
    assert ValidListing(objects, event, KindOf(cache[i]).value, refs);
    assert forall j :: 0 <= j < |refs| ==> refs[j] in refs && listed[j].ref == refs[j];
    FilteredSelects(env.lookup, c, listed);
    TargetsOf(found, event, ref);
    if o :| o in found && JobFor(o, event) == Target(ref) {
      assert o in listed;
    }
    if ref in refs {
      var k :| 0 <= k < |refs| && refs[k] == ref;
      assert listed[k] in listed;
    }
  }

  lemma TargetsOf(objects: seq<Object>, event: Event, ref: Ref)
    ensures Target(ref) in JobsFor(objects, event) <==> exists o :: o in objects && JobFor(o, event) == Target(ref)
  {
    var jobs := JobsFor(objects, event);
    if Target(ref) in jobs {
      var j :| 0 <= j < |jobs| && jobs[j] == Target(ref);
      assert objects[j] in objects && JobFor(objects[j], event) == Target(ref);
    }
    if o :| o in objects && JobFor(o, event) == Target(ref) {
      var j :| 0 <= j < |objects| && objects[j] == o;
      assert jobs[j] == Target(ref);
    }
  }

  lemma DestinationTargetsKnown(env: Env, objects: Objects, event: Event, cache: seq<Destination>, i: nat)
    requires i < |cache| && ValidEnv(env, objects, event, cache)
    ensures TargetsKnown(objects, DestinationJobs(env, objects, event, cache, i))
  {
    var jobs := DestinationJobs(env, objects, event, cache, i);
    forall k | 0 <= k < |jobs| && jobs[k].Target? ensures jobs[k].ref in objects {
      assert jobs[k] in jobs && jobs[k] == Target(jobs[k].ref);
      DestinationTargetsExact(env, objects, event, cache, i, jobs[k].ref);
    }
  }

  lemma TargetsKnownConcat(objects: Objects, a: seq<Job>, b: seq<Job>)
    requires TargetsKnown(objects, a) && TargetsKnown(objects, b)
    ensures TargetsKnown(objects, a + b)
  {
  }

  lemma {:induction false} JoinedTargetsKnown(objects: Objects, groups: seq<seq<Job>>, n: nat)
    requires n <= |groups| && forall i :: 0 <= i < |groups| ==> TargetsKnown(objects, groups[i])
    ensures TargetsKnown(objects, Joined(groups, n))
  {
    if n > 0 {
      JoinedTargetsKnown(objects, groups, n - 1);
      TargetsKnownConcat(objects, Joined(groups, n - 1), groups[n - 1]);
    }
  }

  lemma PlanTargetsKnown(env: Env, objects: Objects, event: Event, cache: seq<Destination>)
    requires ValidEnv(env, objects, event, cache)
    ensures TargetsKnown(objects, Plan(env, objects, event, cache))
  {
    var groups := Asked(env, objects, event, cache);
    forall i | 0 <= i < |groups| ensures TargetsKnown(objects, groups[i]) {
      DestinationTargetsKnown(env, objects, event, cache, i);
    }
    JoinedTargetsKnown(objects, groups, |cache|);
  }

  /** One event, whatever the outside answers: the attempted updates are all targets of the plan
      made on the initial cluster, in order, or exactly those up to the job at which the event
      stops; only objects whose update succeeded change, and only in their two reloader
      annotations; rollout is sequential. */
  lemma EventRefinesPlan(env: Env, objects: Objects, event: Event, cache: seq<Destination>)
    requires ValidEnv(env, objects, event, cache)
    ensures var p, plan := Specified(env, objects, event, cache), Plan(env, objects, event, cache);
            && (p.outcome.Running? ==> Attempts(p.trace) == Targets(plan))
            && (p.outcome.Running? <==> Harmless(plan) && NoFailedWait(p.trace))
            && (!p.outcome.Running? ==> exists k: nat :: k < |plan| && StopsAt(p, plan, k))
            && Sequential(p.trace) && Truthful(env, p.trace)
            && p.objects.Keys == objects.Keys
            && (forall ref :: ref in objects ==>
                  && Essence(p.objects[ref]) == Essence(objects[ref])
                  && (Updated(ref, true) in p.trace ==> p.objects[ref] == Annotated(objects[ref], event))
                  && (Updated(ref, true) !in p.trace ==> p.objects[ref] == objects[ref]))
  {
    var plan := Plan(env, objects, event, cache);
    PlanTargetsKnown(env, objects, event, cache);
    AttemptsFollowPlan(env, event, objects, plan);
    OnlyUpdatedChange(env, event, objects, plan);
    RolloutIsSequential(env, event, objects, plan);
    TraceIsTruthful(env, event, objects, plan);
    if !Specified(env, objects, event, cache).outcome.Running? {
      var k := StoppingPoint(env, event, objects, plan);
    }
    forall ref | ref in objects ensures Essence(Annotated(objects[ref], event)) == Essence(objects[ref]) {
      AnnotatedExact(objects[ref], event);
    }
  }

  lemma {:induction false} SucceededIsAttempted(trace: seq<Action>, n: nat)
    requires n < |trace| && trace[n].Updated?
    ensures trace[n].ref in Attempts(trace)
  {
    if n < |trace| - 1 {
      SucceededIsAttempted(trace[..|trace| - 1], n);
    }
  }

  lemma {:induction false} TargetsAreJobs(jobs: seq<Job>, ref: Ref)
    requires ref in Targets(jobs)
    ensures Target(ref) in jobs
  {
    if ref in Targets(jobs[..|jobs| - 1]) {
      TargetsAreJobs(jobs[..|jobs| - 1], ref);
    }
  }

  lemma {:induction false} InSomeGroup(groups: seq<seq<Job>>, n: nat, job: Job) returns (i: nat)
    requires n <= |groups| && job in Joined(groups, n)
    ensures i < n && job in groups[i]
  {
    if job in groups[n - 1] {
      i := n - 1;
    } else {
      i := InSomeGroup(groups, n - 1, job);
    }
  }

  lemma {:induction false} InJoined(groups: seq<seq<Job>>, n: nat, i: nat, job: Job)
    requires i < n <= |groups| && job in groups[i]
    ensures job in Joined(groups, n)
  {
    if i < n - 1 {
      InJoined(groups, n - 1, i, job);
    }
  }

  lemma {:induction false} JobsAreTargets(jobs: seq<Job>, ref: Ref)
    requires Target(ref) in jobs
    ensures ref in Targets(jobs)
  {
    if Target(ref) in jobs[..|jobs| - 1] {
      JobsAreTargets(jobs[..|jobs| - 1], ref);
    }
  }

  /** The destination wants that object updated: it is of its kind and listed for the event, it is
      watched, and it refers to the rotated secret. */
  ghost predicate Wants(lookup: NamespaceLookup, objects: Objects, event: Event, d: Destination, ref: Ref) {
    && KindOf(d).Some? && CriteriaOf(d).Some?
    && ref in objects && Listable(event, KindOf(d).value, ref)
    && Watched(lookup, CriteriaOf(d).value, objects[ref])
    && Refers(objects[ref].body, event.secretIdentifier)
  }

  ghost predicate AnyWants(lookup: NamespaceLookup, objects: Objects, event: Event, cache: seq<Destination>, ref: Ref) {
    exists i :: 0 <= i < |cache| && Wants(lookup, objects, event, cache[i], ref)
  }

  lemma TargetIsWanted(env: Env, objects: Objects, event: Event, cache: seq<Destination>, i: nat, ref: Ref)
    requires i < |cache| && ValidEnv(env, objects, event, cache)
    requires Target(ref) in DestinationJobs(env, objects, event, cache, i)
    ensures Wants(env.lookup, objects, event, cache[i], ref)
  {
    DestinationTargetsExact(env, objects, event, cache, i, ref);
  }

  /** A destination that neither aborts nor panics has what it wants among its targets. */
  lemma WantedIsTarget(env: Env, objects: Objects, event: Event, cache: seq<Destination>, i: nat, ref: Ref)
    requires i < |cache| && ValidEnv(env, objects, event, cache)
    requires Wants(env.lookup, objects, event, cache[i], ref)
    requires var jobs := DestinationJobs(env, objects, event, cache, i); Abort !in jobs && Panic !in jobs
    ensures Target(ref) in DestinationJobs(env, objects, event, cache, i)
  {
    assert env.listing(i).Some?;
    if MeetsBadPattern(objects[ref].body, event.secretIdentifier) {
      PanicIsPlanned(env, objects, event, cache, i, ref);
    } else {
      DestinationTargetsExact(env, objects, event, cache, i, ref);
    }
  }

  lemma PanicIsPlanned(env: Env, objects: Objects, event: Event, cache: seq<Destination>, i: nat, ref: Ref)
    requires i < |cache| && ValidEnv(env, objects, event, cache)
    requires Wants(env.lookup, objects, event, cache[i], ref) && env.listing(i).Some?
    requires MeetsBadPattern(objects[ref].body, event.secretIdentifier)
    ensures Panic in DestinationJobs(env, objects, event, cache, i)
  {
    var refs, c := env.listing(i).value, CriteriaOf(cache[i]).value;
    var listed := Fetch(objects, refs);
    assert ValidListing(objects, event, KindOf(cache[i]).value, refs);
    assert forall j :: 0 <= j < |refs| ==> refs[j] in refs && listed[j].ref == refs[j];
    FilteredSelects(env.lookup, c, listed);
    var k :| 0 <= k < |refs| && refs[k] == ref;
    assert listed[k] in listed;
    var found := Filtered(env.lookup, c, listed);
    var j :| 0 <= j < |found| && found[j] == objects[ref];
    ReferencesExact(objects[ref].body, event.secretIdentifier);
    assert JobsFor(found, event)[j] == Panic;
  }

  lemma AttemptedIsTarget(env: Env, objects: Objects, event: Event, cache: seq<Destination>, ref: Ref)
    requires ValidEnv(env, objects, event, cache)
    ensures var p, plan := Specified(env, objects, event, cache), Plan(env, objects, event, cache);
            && (ref in Attempts(p.trace) ==> Target(ref) in plan)
            && (p.outcome.Running? && Target(ref) in plan ==> ref in Attempts(p.trace))
            && (p.outcome.Running? ==> Abort !in plan && Panic !in plan)
  {
    var p, plan := Specified(env, objects, event, cache), Plan(env, objects, event, cache);
    PlanTargetsKnown(env, objects, event, cache);
    AttemptsFollowPlan(env, event, objects, plan);
    if ref in Attempts(p.trace) {
      TargetsAreJobs(plan, ref);
    }
    if Target(ref) in plan {
      JobsAreTargets(plan, ref);
    }
  }

  /** An event attempts to update no object but those that a cached destination wants ... */
  lemma AttemptedIsWanted(env: Env, objects: Objects, event: Event, cache: seq<Destination>, ref: Ref)
    requires ValidEnv(env, objects, event, cache) && ref in Attempts(Specified(env, objects, event, cache).trace)
    ensures AnyWants(env.lookup, objects, event, cache, ref)
  {
    AttemptedIsTarget(env, objects, event, cache, ref);
    var i := InSomeGroup(Asked(env, objects, event, cache), |cache|, Target(ref));
    TargetIsWanted(env, objects, event, cache, i, ref);
  }

  /** ... and one that goes through attempts exactly those. */
  lemma EventActsOn(env: Env, objects: Objects, event: Event, cache: seq<Destination>, ref: Ref)
    requires ValidEnv(env, objects, event, cache) && Specified(env, objects, event, cache).outcome.Running?
    ensures ref in Attempts(Specified(env, objects, event, cache).trace) <==>
            AnyWants(env.lookup, objects, event, cache, ref)
  {
    AttemptedIsTarget(env, objects, event, cache, ref);
    if i :| 0 <= i < |cache| && Wants(env.lookup, objects, event, cache[i], ref) {
      var groups := Asked(env, objects, event, cache);
      forall job | job in groups[i] ensures job in Plan(env, objects, event, cache) {
        InJoined(groups, |cache|, i, job);
      }
      WantedIsTarget(env, objects, event, cache, i, ref);
    }
    if ref in Attempts(Specified(env, objects, event, cache).trace) {
      AttemptedIsWanted(env, objects, event, cache, ref);
    }
  }

  /** An event changes no object that no cached destination wants. */
  lemma UnwantedIsUnchanged(env: Env, objects: Objects, event: Event, cache: seq<Destination>, ref: Ref)
    requires ValidEnv(env, objects, event, cache) && ref in objects
    requires !AnyWants(env.lookup, objects, event, cache, ref)
    ensures var p := Specified(env, objects, event, cache);
            ref in p.objects && p.objects[ref] == objects[ref]
  {
    var p, plan := Specified(env, objects, event, cache), Plan(env, objects, event, cache);
    PlanTargetsKnown(env, objects, event, cache);
    OnlyUpdatedChange(env, event, objects, plan);
    if n :| 0 <= n < |p.trace| && p.trace[n] == Updated(ref, true) {
      SucceededIsAttempted(p.trace, n);
      AttemptedIsWanted(env, objects, event, cache, ref);
    }
  }

  /** Destinations that are not in the cache, such as those of another Config, are served by an
      event that goes through if and only if the cached ones want all that they want. */
  lemma OthersServedIff(env: Env, objects: Objects, event: Event, cache: seq<Destination>, others: seq<Destination>)
    requires ValidEnv(env, objects, event, cache) && Specified(env, objects, event, cache).outcome.Running?
    ensures (forall ref :: AnyWants(env.lookup, objects, event, others, ref)
                           ==> ref in Attempts(Specified(env, objects, event, cache).trace))
            <==>
            (forall ref :: AnyWants(env.lookup, objects, event, others, ref)
                           ==> AnyWants(env.lookup, objects, event, cache, ref))
  {
    forall ref
      ensures ref in Attempts(Specified(env, objects, event, cache).trace) <==>
              AnyWants(env.lookup, objects, event, cache, ref)
    {
      EventActsOn(env, objects, event, cache, ref);
    }
  }
}
