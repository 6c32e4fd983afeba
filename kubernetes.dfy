/** The Kubernetes provider: which images it tracks, which workloads an event
    impacts, and how the resulting plans are carried out through the Git
    repository and the notification sender. */
module Kubernetes {

  import opened Wrappers
  import opened Strings
  import opened Types
  import opened KubeUpdates
  import Policies
  import HelmCommon

  const ProviderName: string := "kubernetes"
  const ChangeCauseAnnotation: string := "kubernetes.io/change-cause"

  datatype NotificationType = NotificationPreDeploymentUpdate | NotificationDeploymentUpdate
  datatype Level = LevelDebug | LevelSuccess

  /** A notification handed to the sender. Its creation time is not modelled. */
  datatype Notification = Notification(
    resourceKind: string,
    identifier: string,
    name: string,
    message: string,
    kind: NotificationType,
    level: Level,
    channels: seq<string>,
    metadata: map<string, string>)

  /** A call the provider makes on its Git repository. */
  datatype GitCall = GrepAndReplace(oldImage: string, newTag: string) | CommitAndPushAll(message: string)

  /** Collaborators of the provider that are not part of this model: the image
      parser, Repository.String(), the policy resolver, types.ParseTrigger, cron
      parsing, the notification-channel and release-notes annotation readers, and
      the approvals check (which keeps the approved plans). */
  datatype ProviderEnv = ProviderEnv(
    parse: Parser,
    repoString: Repository -> string,
    policyOf: (map<string, string>, map<string, string>) -> Policy,
    parseTrigger: string -> TriggerType,
    cronValid: string -> bool,
    channelsOf: map<string, string> -> seq<string>,
    releaseNotesOf: map<string, string> -> string,
    approved: UpdatePlan -> bool)

  /** A key that names the image pull secret, compared case-insensitively. */
  predicate IsPullSecretKey(k: string)
  {
    ToLower(k) == ToLower(ImagePullSecretAnnotation)
  }

  /** getImagePullSecretFromMeta: the value of a label whose key is the pull-secret
      key up to case; failing that, the value of such an annotation; failing that,
      "". When several keys match, Go's map order picks one of them. */
  method GetImagePullSecretFromMeta(labels: map<string, string>, annotations: map<string, string>) returns (r: string)
    ensures (exists k :: k in labels && IsPullSecretKey(k)) ==>
      exists k :: k in labels && IsPullSecretKey(k) && r == labels[k]
    ensures (forall k :: k in labels ==> !IsPullSecretKey(k)) && (exists k :: k in annotations && IsPullSecretKey(k)) ==>
      exists k :: k in annotations && IsPullSecretKey(k) && r == annotations[k]
    ensures (forall k :: k in labels ==> !IsPullSecretKey(k)) && (forall k :: k in annotations ==> !IsPullSecretKey(k)) ==>
      r == ""
  {
    var keys := labels.Keys;
    while keys != {}
      invariant keys <= labels.Keys
      invariant forall k :: k in labels && k !in keys ==> !IsPullSecretKey(k)
      decreases keys
    {
      var k :| k in keys;
      if IsPullSecretKey(k) {
        return labels[k];
      }
      keys := keys - {k};
    }
    keys := annotations.Keys;
    while keys != {}
      invariant keys <= annotations.Keys
      invariant forall k :: k in annotations && k !in keys ==> !IsPullSecretKey(k)
      decreases keys
    {
      var k :| k in keys;
      if IsPullSecretKey(k) {
        return annotations[k];
      }
      keys := keys - {k};
    }
    return "";
  }

  /** The poll schedule of a workload: its poll-schedule annotation when present
      and a valid cron expression, the default schedule otherwise. */
  function PollSchedule(annotations: map<string, string>, cronValid: string -> bool): (s: string)
    ensures PollScheduleAnnotation in annotations && cronValid(annotations[PollScheduleAnnotation]) ==>
      s == annotations[PollScheduleAnnotation]
    ensures PollScheduleAnnotation !in annotations || !cronValid(annotations[PollScheduleAnnotation]) ==>
      s == PollDefaultSchedule
  {
    if PollScheduleAnnotation in annotations then
      var schedule := annotations[PollScheduleAnnotation];
      if cronValid(schedule) then schedule else PollDefaultSchedule
    else PollDefaultSchedule
  }

  /** The tracked images of one workload's image list, in order, skipping images
      that do not parse. */
  function TrackedOfImages(images: seq<string>, schedule: string, trigger: TriggerType, plc: Policy, parse: Parser): (r: seq<TrackedImage>)
    ensures |r| <= |images|
    ensures forall t :: t in r ==>
      t.pollSchedule == schedule && t.trigger == trigger && t.provider == ProviderName && t.policy == plc && t.meta == map[]
    decreases |images|
  {
    if images == [] then []
    else
      var rest := TrackedOfImages(images[..|images| - 1], schedule, trigger, plc, parse);
      match parse(images[|images| - 1])
      case None => rest
      case Some(ref) => rest + [TrackedImage(ref, trigger, schedule, ProviderName, map[], plc)]
  }

  /** The tracked images of one workload. Its policy is attached but not used to
      filter: workloads with a None policy are tracked too. */
  function TrackedOfResource(r: GenericResource, env: ProviderEnv): seq<TrackedImage>
    reads r
  {
    TrackedOfImages(r.images, PollSchedule(r.annotations, env.cronValid),
      Policies.GetTriggerPolicy(r.labels, r.annotations, env.parseTrigger),
      env.policyOf(r.labels, r.annotations), env.parse)
  }

  /** The tracked images of the workloads `rs`, workload by workload. */
  function TrackedOfResources(rs: seq<GenericResource>, env: ProviderEnv): seq<TrackedImage>
    reads set r | r in rs
    decreases |rs|
  {
    if rs == [] then []
    else TrackedOfResources(rs[..|rs| - 1], env) + TrackedOfResource(rs[|rs| - 1], env)
  }

  /** When every image of a workload parses, it contributes one tracked image per
      container image, in order, each with that image's reference. */
  lemma {:induction false} TrackedOfImagesAllParse(images: seq<string>, schedule: string, trigger: TriggerType, plc: Policy, parse: Parser)
    requires forall i :: 0 <= i < |images| ==> parse(images[i]).Some?
    ensures |TrackedOfImages(images, schedule, trigger, plc, parse)| == |images|
    ensures forall i :: 0 <= i < |images| ==>
      TrackedOfImages(images, schedule, trigger, plc, parse)[i].image == parse(images[i]).value
    decreases |images|
  {
    if images != [] {
      TrackedOfImagesAllParse(images[..|images| - 1], schedule, trigger, plc, parse);
    }
  }

  /** Every tracked image comes from an image of the workload that parses. */
  lemma {:induction false} TrackedOfImagesSound(images: seq<string>, schedule: string, trigger: TriggerType, plc: Policy, parse: Parser, k: nat)
    requires k < |TrackedOfImages(images, schedule, trigger, plc, parse)|
    ensures exists i :: 0 <= i < |images| && parse(images[i]) == Some(TrackedOfImages(images, schedule, trigger, plc, parse)[k].image)
    decreases |images|
  {
    var init := images[..|images| - 1];
    var rest := TrackedOfImages(init, schedule, trigger, plc, parse);
    if k < |rest| {
      TrackedOfImagesSound(init, schedule, trigger, plc, parse, k);
      var i :| 0 <= i < |init| && parse(init[i]) == Some(rest[k].image);
      assert images[i] == init[i];
    }
  }

  /** The resources of `rs` are distinct objects. */
  predicate Distinct<T(==)>(rs: seq<T>)
  {
    forall i, j :: 0 <= i < j < |rs| ==> rs[i] != rs[j]
  }

  /** The plan createUpdatePlans keeps for one workload: none when its policy is
      None, when the event does not parse, or when no container is rewritten;
      otherwise the workload with the last rewritten container's tag as current
      version and the event's tag as new version. */
  function PlanOf(r: GenericResource, repo: Repository, env: ProviderEnv): (ps: seq<UpdatePlan>)
    reads r
    ensures |ps| <= 1
    ensures ps != [] ==> ps[0].resource == r && ps[0].newVersion == repo.tag
  {
    PlanOfValues(r, r.labels, r.annotations, r.images, repo, env)
  }

  /** The plans of the workloads `rs`, in order. */
  function PlansOf(rs: seq<GenericResource>, repo: Repository, env: ProviderEnv): (ps: seq<UpdatePlan>)
    reads set r | r in rs
    ensures |ps| <= |rs|
    ensures forall p :: p in ps ==> p.resource != null && p.resource in rs && p.newVersion == repo.tag
    decreases |rs|
  {
    if rs == [] then []
    else PlansOf(rs[..|rs| - 1], repo, env) + PlanOf(rs[|rs| - 1], repo, env)
  }

  /** The plans of the workloads `rs` whose states are `states`, in order. */
  function PlansOfStates(rs: seq<GenericResource>, states: seq<ResourceState>, repo: Repository, env: ProviderEnv): seq<UpdatePlan>
    requires |states| == |rs|
    decreases |rs|
  {
    if rs == [] then []
    else
      var n := |rs| - 1;
      PlansOfStates(rs[..n], states[..n], repo, env)
        + PlanOfValues(rs[n], states[n].labels, states[n].annotations, states[n].images, repo, env)
  }

  lemma {:induction false} PlansOfByStates(rs: seq<GenericResource>, repo: Repository, env: ProviderEnv)
    ensures PlansOf(rs, repo, env) == PlansOfStates(rs, StatesOfResources(rs), repo, env)
    decreases |rs|
  {
    if rs != [] {
      var n := |rs| - 1;
      PlansOfByStates(rs[..n], repo, env);
      assert StatesOfResources(rs)[..n] == StatesOfResources(rs[..n]);
    }
  }

  lemma PlansOfStatesStep(rs: seq<GenericResource>, states: seq<ResourceState>, i: nat, repo: Repository, env: ProviderEnv)
    requires |states| == |rs| && i < |rs|
    ensures PlansOfStates(rs[..i + 1], states[..i + 1], repo, env)
      == PlansOfStates(rs[..i], states[..i], repo, env)
         + PlanOfValues(rs[i], states[i].labels, states[i].annotations, states[i].images, repo, env)
  {
    assert rs[..i + 1][..i] == rs[..i];
    assert states[..i + 1][..i] == states[..i];
  }

  /** Each plan of `ps` whose workloads come from `rs` has, as its planned
      state, the planned state of the workload of `rs` at index `ks[i]`. */
  lemma PlannedAtIndex(rs: seq<GenericResource>, ps: seq<UpdatePlan>, repo: Repository, env: ProviderEnv, now: string)
    returns (ks: seq<nat>)
    requires forall p :: p in ps ==> p.resource in rs
    ensures |ks| == |ps|
    ensures forall i :: 0 <= i < |ps| ==> ks[i] < |rs| && ps[i].resource == rs[ks[i]]
    ensures forall i :: 0 <= i < |ps| ==>
      PlannedStates(ps, repo, env, now)[i] == Planned(StatesOfResources(rs)[ks[i]], repo, env, now)
  {
    var planned := PlannedStates(ps, repo, env, now);
    var states := StatesOfResources(rs);
    ks := [];
    while |ks| < |ps|
      invariant |ks| <= |ps|
      invariant forall i :: 0 <= i < |ks| ==> ks[i] < |rs| && ps[i].resource == rs[ks[i]]
      invariant forall i :: 0 <= i < |ks| ==> planned[i] == Planned(states[ks[i]], repo, env, now)
    {
      var i := |ks|;
      assert ps[i] in ps;
      var k :| 0 <= k < |rs| && rs[k] == ps[i].resource;
      assert planned[i] == PlannedState(rs[k], repo, env, now);
      ks := ks + [k];
    }
  }

  lemma StatesOfResourcesEq(rs: seq<GenericResource>, target: seq<ResourceState>)
    requires |target| == |rs| && forall j :: 0 <= j < |rs| ==> StateOf(rs[j]) == target[j]
    ensures StatesOfResources(rs) == target
  {
  }

  /** The plan of a workload with the given labels, annotations and images, as a
      value: see PlanOf. */
  function PlanOfValues(r: GenericResource, labels: map<string, string>, annotations: map<string, string>,
                        images: seq<string>, repo: Repository, env: ProviderEnv): seq<UpdatePlan>
  {
    var plc := env.policyOf(labels, annotations);
    if plc.kind == PolicyTypeNone then []
    else match env.parse(env.repoString(repo))
      case None => []
      case Some(eventRef) =>
        match LastUpdatedTag(images, eventRef, repo, plc, env.parse)
        case None => []
        case Some(tag) => [UpdatePlan(r, tag, repo.tag)]
  }

  /** A workload's container images after createUpdatePlans: rewritten as
      checkForUpdate says unless its policy is None or the event does not parse. */
  function ImagesAfter(labels: map<string, string>, annotations: map<string, string>, images: seq<string>,
                       repo: Repository, env: ProviderEnv): seq<string>
  {
    var plc := env.policyOf(labels, annotations);
    if plc.kind == PolicyTypeNone then images
    else match env.parse(env.repoString(repo))
      case None => images
      case Some(eventRef) => RewriteImages(images, eventRef, repo, plc, env.parse)
  }

  /** A workload's spec annotations after createUpdatePlans: the update time is
      set exactly on workloads that get a plan. */
  function SpecAfter(labels: map<string, string>, annotations: map<string, string>, images: seq<string>,
                     spec: map<string, string>, repo: Repository, env: ProviderEnv, now: string): map<string, string>
  {
    var plc := env.policyOf(labels, annotations);
    if plc.kind == PolicyTypeNone then spec
    else match env.parse(env.repoString(repo))
      case None => spec
      case Some(eventRef) =>
        if AnyUpdated(images, eventRef, repo, plc, env.parse) then spec[UpdateTimeAnnotation := now] else spec
  }

  /** A plan that updateDeployments carries out: its versions differ. */
  predicate Executed(p: UpdatePlan)
  {
    p.currentVersion != p.newVersion
  }

  /** The executed plans name distinct, non-null workloads. */
  predicate ExecutablePlans(plans: seq<UpdatePlan>)
  {
    && (forall i :: 0 <= i < |plans| && Executed(plans[i]) ==> plans[i].resource != null)
    && (forall i, j :: 0 <= i < j < |plans| && Executed(plans[i]) && Executed(plans[j]) ==>
          plans[i].resource != plans[j].resource)
  }

  /** The workloads of the executed plans. */
  function ExecutedResources(plans: seq<UpdatePlan>): set<GenericResource>
  {
    set i | 0 <= i < |plans| && Executed(plans[i]) && plans[i].resource != null :: plans[i].resource
  }

  /** The workloads updateDeployments reports as updated: those of the executed
      plans, in plan order. */
  function UpdatedOf(plans: seq<UpdatePlan>): (rs: seq<GenericResource?>)
    ensures |rs| <= |plans|
    decreases |plans|
  {
    if plans == [] then []
    else
      var last := plans[|plans| - 1];
      var init := plans[..|plans| - 1];
      assert forall i :: 0 <= i < |init| ==> init[i] == plans[i];
      UpdatedOf(init) + (if Executed(last) then [last.resource] else [])
  }

  /** The change-cause annotation written for a plan. */
  function ChangeCause(currentVersion: string, newVersion: string, timestamp: string): (cause: string)
    ensures HasPrefix(cause, "bow automated update, version " + currentVersion + " -> " + newVersion)
    ensures |timestamp| + 2 <= |cause| && cause[|cause| - |timestamp| - 2..] == "[" + timestamp + "]"
  {
    "bow automated update, version " + currentVersion + " -> " + newVersion + " [" + timestamp + "]"
  }

  function Summary(r: GenericResource, images: seq<string>, currentVersion: string, newVersion: string): string
  {
    r.kind + " " + r.namespace + "/" + r.name + " " + currentVersion + "->" + newVersion + " (" + Join(images, ", ") + ")"
  }

  function Metadata(r: GenericResource): map<string, string>
  {
    map["provider" := ProviderName, "namespace" := r.namespace, "name" := r.name]
  }

  /** The two notifications of an executed plan, given its workload's annotations
      and images before the update: "preparing to update" on the channels those
      annotations name, then "update resource" with the release notes read after
      the change-cause annotation is set. */
  function NotificationsFor(r: GenericResource, annotations: map<string, string>, images: seq<string>,
                            p: UpdatePlan, timestamp: string, env: ProviderEnv): (ns: seq<Notification>)
    ensures |ns| == 2
    ensures ns[0].name == "preparing to update resource" && ns[0].kind == NotificationPreDeploymentUpdate && ns[0].level == LevelDebug
    ensures ns[1].name == "update resource" && ns[1].kind == NotificationDeploymentUpdate && ns[1].level == LevelSuccess
    ensures forall n :: n in ns ==>
      && n.resourceKind == r.kind && n.identifier == r.identifier
      && n.channels == env.channelsOf(annotations) && n.metadata == Metadata(r)
    ensures HasPrefix(ns[1].message, "Successfully updated ")
  {
    var channels := env.channelsOf(annotations);
    var notes := env.releaseNotesOf(annotations[ChangeCauseAnnotation := ChangeCause(p.currentVersion, p.newVersion, timestamp)]);
    var summary := Summary(r, images, p.currentVersion, p.newVersion);
    [ Notification(r.kind, r.identifier, "preparing to update resource", "Preparing to update " + summary,
                   NotificationPreDeploymentUpdate, LevelDebug, channels, Metadata(r)),
      Notification(r.kind, r.identifier, "update resource",
                   if notes != "" then "Successfully updated " + summary + ". Release notes: " + notes
                   else "Successfully updated " + summary,
                   NotificationDeploymentUpdate, LevelSuccess, channels, Metadata(r)) ]
  }

  /** The image's second ':'-separated part exists and is `tag`. */
  predicate TagIs(image: string, tag: string)
  {
    var parts := Split(image, ':');
    |parts| > 1 && parts[1] == tag
  }

  /** The Git calls for one executed plan: for each of the workload's images whose
      second ':'-separated part equals the plan's current version, a content
      rewrite to the new version followed by a commit-and-push. Images without a
      tag are ignored. */
  function GitCallsFor(images: seq<string>, currentVersion: string, newVersion: string): (calls: seq<GitCall>)
    decreases |images|
  {
    if images == [] then []
    else
      GitCallsFor(images[..|images| - 1], currentVersion, newVersion)
        + GitCallsForImage(images[|images| - 1], currentVersion, newVersion)
  }

  /** The Git calls for one image of an executed plan. */
  function GitCallsForImage(image: string, currentVersion: string, newVersion: string): seq<GitCall>
  {
    if TagIs(image, currentVersion)
    then [GrepAndReplace(image, newVersion), CommitAndPushAll("updating " + image + " to " + newVersion)]
    else []
  }

  lemma GitCallsForStep(images: seq<string>, j: nat, currentVersion: string, newVersion: string)
    requires j < |images|
    ensures GitCallsFor(images[..j + 1], currentVersion, newVersion)
      == GitCallsFor(images[..j], currentVersion, newVersion)
         + GitCallsForImage(images[j], currentVersion, newVersion)
  {
    assert images[..j + 1][..j] == images[..j];
  }

  /** Every content rewrite targets one of the workload's images whose tag part is
      the current version, and always rewrites to the new version. */
  lemma {:induction false} GitCallsForSound(images: seq<string>, currentVersion: string, newVersion: string, k: nat)
    requires k < |GitCallsFor(images, currentVersion, newVersion)|
    ensures var c := GitCallsFor(images, currentVersion, newVersion)[k];
      c.GrepAndReplace? ==>
        && c.oldImage in images && c.newTag == newVersion
        && TagIs(c.oldImage, currentVersion)
    decreases |images|
  {
    var init := images[..|images| - 1];
    var rest := GitCallsFor(init, currentVersion, newVersion);
    if k < |rest| {
      GitCallsForSound(init, currentVersion, newVersion, k);
      assert forall x :: x in init ==> x in images;
    }
  }

  /** An image whose tag part is the current version gets a content rewrite. */
  lemma {:induction false} GitCallsForComplete(images: seq<string>, currentVersion: string, newVersion: string, i: nat)
    requires i < |images|
    requires TagIs(images[i], currentVersion)
    ensures GrepAndReplace(images[i], newVersion) in GitCallsFor(images, currentVersion, newVersion)
    decreases |images|
  {
    var init := images[..|images| - 1];
    var left := GitCallsFor(init, currentVersion, newVersion);
    var right := GitCallsForImage(images[|images| - 1], currentVersion, newVersion);
    var x := GrepAndReplace(images[i], newVersion);
    assert x in left + right by {
      if i < |init| {
        assert init[i] == images[i];
        GitCallsForComplete(init, currentVersion, newVersion, i);
        SeqInLeft(left, right, x);
      } else {
        GitCallsForImageFirst(images[i], currentVersion, newVersion);
        SeqInRight(left, right, 0);
      }
    }
  }

  /** A tagged image's calls start with its content rewrite. */
  lemma GitCallsForImageFirst(image: string, currentVersion: string, newVersion: string)
    requires TagIs(image, currentVersion)
    ensures var calls := GitCallsForImage(image, currentVersion, newVersion);
      |calls| > 0 && calls[0] == GrepAndReplace(image, newVersion)
  {
  }

  lemma SeqInLeft<T>(a: seq<T>, b: seq<T>, x: T)
    requires x in a
    ensures x in a + b
  {
    var k :| 0 <= k < |a| && a[k] == x;
    assert (a + b)[k] == x;
  }

  lemma SeqInRight<T>(a: seq<T>, b: seq<T>, k: nat)
    requires k < |b|
    ensures b[k] in a + b
  {
    assert (a + b)[|a| + k] == b[k];
  }

  /** The mutable fields of a workload, as values. */
  datatype ResourceState = ResourceState(labels: map<string, string>, annotations: map<string, string>,
                                         specAnnotations: map<string, string>, images: seq<string>)

  function StateOf(r: GenericResource): ResourceState
    reads r
  {
    ResourceState(r.labels, r.annotations, r.specAnnotations, r.images)
  }

  /** The state of each workload of `rs`. */
  function StatesOfResources(rs: seq<GenericResource>): (states: seq<ResourceState>)
    reads set r | r in rs
    ensures |states| == |rs|
    ensures forall i :: 0 <= i < |rs| ==> states[i] == StateOf(rs[i])
    decreases |rs|
  {
    if rs == [] then [] else StatesOfResources(rs[..|rs| - 1]) + [StateOf(rs[|rs| - 1])]
  }

  /** The state of each plan's workload (an empty state for a plan without one). */
  function StatesOf(ps: seq<UpdatePlan>): (states: seq<ResourceState>)
    reads set p | p in ps && p.resource != null :: p.resource
    ensures |states| == |ps|
    ensures forall i :: 0 <= i < |ps| && ps[i].resource != null ==> states[i] == StateOf(ps[i].resource)
    decreases |ps|
  {
    if ps == [] then []
    else
      var last := ps[|ps| - 1];
      StatesOf(ps[..|ps| - 1]) + [if last.resource == null then NoState else StateOf(last.resource)]
  }

  /** The state recorded for a plan without a workload. */
  const NoState := ResourceState(map[], map[], map[], [])

  /** A workload's state once updateDeployments has carried out plan `p` on it:
      only the change-cause annotation is set. */
  function Annotated(st: ResourceState, p: UpdatePlan, timestamp: string): ResourceState
  {
    st.(annotations := st.annotations[ChangeCauseAnnotation := ChangeCause(p.currentVersion, p.newVersion, timestamp)])
  }

  /** The notifications of the plans `ps`, plan by plan, given the state of each
      plan's workload before the update. */
  function NotificationsOf(ps: seq<UpdatePlan>, states: seq<ResourceState>, timestamp: string, env: ProviderEnv): seq<Notification>
    requires |states| == |ps|
    decreases |ps|
  {
    if ps == [] then []
    else
      var n := |ps| - 1;
      var p := ps[n];
      NotificationsOf(ps[..n], states[..n], timestamp, env)
        + (if Executed(p) && p.resource != null
           then NotificationsFor(p.resource, states[n].annotations, states[n].images, p, timestamp, env) else [])
  }

  /** The Git calls of the plans `ps`, plan by plan, given the images of each
      plan's workload. */
  function GitCallsOf(ps: seq<UpdatePlan>, states: seq<ResourceState>): seq<GitCall>
    requires |states| == |ps|
    decreases |ps|
  {
    if ps == [] then []
    else
      var n := |ps| - 1;
      var p := ps[n];
      GitCallsOf(ps[..n], states[..n])
        + (if Executed(p) then GitCallsFor(states[n].images, p.currentVersion, p.newVersion) else [])
  }

  lemma SeqAssoc<T>(a: seq<T>, b: seq<T>, c: seq<T>)
    ensures (a + b) + c == a + (b + c)
  {
  }

  /** The notifications updateDeployments sends for plan `i`. */
  function StepNotes(ps: seq<UpdatePlan>, states: seq<ResourceState>, i: nat, timestamp: string, env: ProviderEnv): seq<Notification>
    requires |states| == |ps| && i < |ps|
  {
    if Executed(ps[i]) && ps[i].resource != null
    then NotificationsFor(ps[i].resource, states[i].annotations, states[i].images, ps[i], timestamp, env)
    else []
  }

  /** The Git calls updateDeployments makes for plan `i`. */
  function StepCalls(ps: seq<UpdatePlan>, states: seq<ResourceState>, i: nat): seq<GitCall>
    requires |states| == |ps| && i < |ps|
  {
    if Executed(ps[i]) then GitCallsFor(states[i].images, ps[i].currentVersion, ps[i].newVersion) else []
  }

  lemma UpdateDeploymentsStep(ps: seq<UpdatePlan>, states: seq<ResourceState>, i: nat, timestamp: string, env: ProviderEnv,
                               sent0: seq<Notification>, calls0: seq<GitCall>)
    requires |states| == |ps| && i < |ps|
    ensures sent0 + NotificationsOf(ps[..i + 1], states[..i + 1], timestamp, env)
      == sent0 + NotificationsOf(ps[..i], states[..i], timestamp, env) + StepNotes(ps, states, i, timestamp, env)
    ensures calls0 + GitCallsOf(ps[..i + 1], states[..i + 1])
      == calls0 + GitCallsOf(ps[..i], states[..i]) + StepCalls(ps, states, i)
    ensures UpdatedOf(ps[..i + 1]) == UpdatedOf(ps[..i]) + (if Executed(ps[i]) then [ps[i].resource] else [])
  {
    assert ps[..i + 1][..i] == ps[..i];
    assert states[..i + 1][..i] == states[..i];
    SeqAssoc(sent0, NotificationsOf(ps[..i], states[..i], timestamp, env), StepNotes(ps, states, i, timestamp, env));
    SeqAssoc(calls0, GitCallsOf(ps[..i], states[..i]), StepCalls(ps, states, i));
  }

  /** Each plan names a workload, and no two plans name the same one. */
  predicate DistinctResources(ps: seq<UpdatePlan>)
  {
    && (forall i :: 0 <= i < |ps| ==> ps[i].resource != null)
    && (forall i, j :: 0 <= i < j < |ps| ==> ps[i].resource != ps[j].resource)
  }

  /** The plans the approval filter lets through, in order. */
  function ApprovedOf(ps: seq<UpdatePlan>, approved: UpdatePlan -> bool): (r: seq<UpdatePlan>)
    ensures |r| <= |ps|
    ensures forall p :: p in r ==> p in ps && approved(p)
    decreases |ps|
  {
    if ps == [] then []
    else
      var last := ps[|ps| - 1];
      ApprovedOf(ps[..|ps| - 1], approved) + (if approved(last) then [last] else [])
  }

  /** Appending a plan for a workload no earlier plan names keeps the workloads
      distinct. */
  lemma AppendDistinct(a: seq<UpdatePlan>, p: UpdatePlan)
    requires DistinctResources(a) && p.resource != null
    requires forall i :: 0 <= i < |a| ==> a[i].resource != p.resource
    ensures DistinctResources(a + [p])
  {
    var r := a + [p];
    assert forall i :: 0 <= i < |a| ==> r[i] == a[i];
  }

  /** A distinct cache yields plans for distinct workloads. */
  lemma {:induction false} PlansOfDistinct(rs: seq<GenericResource>, repo: Repository, env: ProviderEnv)
    requires Distinct(rs)
    ensures DistinctResources(PlansOf(rs, repo, env))
    decreases |rs|
  {
    if rs != [] {
      var n := |rs| - 1;
      var init := rs[..n];
      assert Distinct(init) by {
        assert forall i :: 0 <= i < n ==> init[i] == rs[i];
      }
      PlansOfDistinct(init, repo, env);
      var a := PlansOf(init, repo, env);
      var b := PlanOf(rs[n], repo, env);
      if b != [] {
        assert PlansOf(rs, repo, env) == a + [b[0]];
        forall i | 0 <= i < |a|
          ensures a[i].resource != rs[n]
        {
          assert a[i] in a;
          var k :| 0 <= k < n && init[k] == a[i].resource;
          assert rs[k] == init[k];
        }
        AppendDistinct(a, b[0]);
      } else {
        assert PlansOf(rs, repo, env) == a;
      }
    }
  }

  /** Filtering plans keeps their workloads distinct. */
  lemma {:induction false} ApprovedOfDistinct(ps: seq<UpdatePlan>, approved: UpdatePlan -> bool)
    requires DistinctResources(ps)
    ensures DistinctResources(ApprovedOf(ps, approved))
    decreases |ps|
  {
    if ps != [] {
      var n := |ps| - 1;
      var init := ps[..n];
      assert DistinctResources(init) by {
        assert forall i :: 0 <= i < n ==> init[i] == ps[i];
      }
      ApprovedOfDistinct(init, approved);
      var a := ApprovedOf(init, approved);
      if approved(ps[n]) {
        forall i | 0 <= i < |a|
          ensures a[i].resource != ps[n].resource
        {
          assert a[i] in a;
          var k :| 0 <= k < n && init[k] == a[i];
          assert ps[k] == init[k];
        }
        AppendDistinct(a, ps[n]);
      }
    }
  }

  /** A workload's state once createUpdatePlans has run on it. */
  function PlannedState(r: GenericResource, repo: Repository, env: ProviderEnv, now: string): ResourceState
    reads r
  {
    Planned(StateOf(r), repo, env, now)
  }

  /** A workload state once checkForUpdate has run on it: the images rewritten and
      the update time set as createUpdatePlans does. */
  function Planned(st: ResourceState, repo: Repository, env: ProviderEnv, now: string): ResourceState
  {
    ResourceState(st.labels, st.annotations,
                  SpecAfter(st.labels, st.annotations, st.images, st.specAnnotations, repo, env, now),
                  ImagesAfter(st.labels, st.annotations, st.images, repo, env))
  }

  /** The state of each plan's workload once createUpdatePlans has run. */
  function PlannedStates(ps: seq<UpdatePlan>, repo: Repository, env: ProviderEnv, now: string): (states: seq<ResourceState>)
    reads set p | p in ps && p.resource != null :: p.resource
    ensures |states| == |ps|
    ensures forall i :: 0 <= i < |ps| && ps[i].resource != null ==> states[i] == PlannedState(ps[i].resource, repo, env, now)
    decreases |ps|
  {
    if ps == [] then []
    else
      var last := ps[|ps| - 1];
      PlannedStates(ps[..|ps| - 1], repo, env, now)
        + [if last.resource == null then NoState else PlannedState(last.resource, repo, env, now)]
  }

  /** Each state of `states` once createUpdatePlans has run on its workload. */
  function PlannedAll(states: seq<ResourceState>, repo: Repository, env: ProviderEnv, now: string): (r: seq<ResourceState>)
    ensures |r| == |states|
    ensures forall i :: 0 <= i < |states| ==> r[i] == Planned(states[i], repo, env, now)
    decreases |states|
  {
    if states == [] then []
    else PlannedAll(states[..|states| - 1], repo, env, now) + [Planned(states[|states| - 1], repo, env, now)]
  }

  /** As written, updateDeployments reads the workload's images after
      checkForUpdate has already rewritten them to the new tag, and picks those
      still on the current version. So the image a rewritten container had before
      the event is never replaced in Git (when image names and tags hold no ':'
      and the versions differ). */
  lemma {:induction false} RewrittenContainerEscapesGit(images: seq<string>, eventRef: Reference, repo: Repository,
                                                        plc: Policy, parse: Parser, currentVersion: string, i: nat, t: string)
    requires i < |images|
    requires ContainerUpdate(images[i], eventRef, repo, plc, parse).Some?
    requires currentVersion != repo.tag && ':' !in repo.tag
    requires forall j :: 0 <= j < |images| && ContainerUpdate(images[j], eventRef, repo, plc, parse).Some? ==>
      ':' !in HelmCommon.UpdatedImageName(parse(images[j]).value)
    ensures GrepAndReplace(images[i], t) !in GitCallsFor(RewriteImages(images, eventRef, repo, plc, parse), currentVersion, t)
  {
    var after := RewriteImages(images, eventRef, repo, plc, parse);
    var calls := GitCallsFor(after, currentVersion, t);
    forall j | 0 <= j < |after|
      ensures after[j] != images[i] || !TagIs(after[j], currentVersion)
    {
      RewriteImagesSpec(images, eventRef, repo, plc, parse, j);
      if ContainerUpdate(images[j], eventRef, repo, plc, parse).Some? {
        HelmCommon.UpdatedImageSplits(parse(images[j]).value, repo.tag);
      } else {
        assert after[j] == images[j];
      }
    }
    forall k | 0 <= k < |calls|
      ensures calls[k] != GrepAndReplace(images[i], t)
    {
      GitCallsForSound(after, currentVersion, t, k);
    }
  }

  /** As written, a container checkForUpdate left alone (another repository, say)
      whose tag part happens to equal the current version is rewritten in Git to
      the event's tag. */
  lemma UntouchedContainerOnOldTagRewritten(images: seq<string>, eventRef: Reference, repo: Repository,
                                            plc: Policy, parse: Parser, currentVersion: string, j: nat)
    requires j < |images|
    requires ContainerUpdate(images[j], eventRef, repo, plc, parse).None? && TagIs(images[j], currentVersion)
    ensures GrepAndReplace(images[j], repo.tag) in GitCallsFor(RewriteImages(images, eventRef, repo, plc, parse), currentVersion, repo.tag)
  {
    var after := RewriteImages(images, eventRef, repo, plc, parse);
    RewriteImagesSpec(images, eventRef, repo, plc, parse, j);
    assert after[j] == images[j];
    GitCallsForComplete(after, currentVersion, repo.tag, j);
  }

  /** The Git calls updateDeployments evidently means to make for a workload: for
      each container checkForUpdate rewrote, its image as it was before the event
      is replaced by the event's tag and committed. */
  function GitCallsForRewritten(images: seq<string>, eventRef: Reference, repo: Repository, plc: Policy, parse: Parser): seq<GitCall>
    decreases |images|
  {
    if images == [] then []
    else
      var img := images[|images| - 1];
      GitCallsForRewritten(images[..|images| - 1], eventRef, repo, plc, parse)
        + (if ContainerUpdate(img, eventRef, repo, plc, parse).Some?
           then [GrepAndReplace(img, repo.tag), CommitAndPushAll("updating " + img + " to " + repo.tag)]
           else [])
  }

  /** The corrected calls replace in Git exactly the images of the containers
      checkForUpdate rewrote, and always with the event's tag. */
  lemma {:induction false} GitCallsForRewrittenExact(images: seq<string>, eventRef: Reference, repo: Repository,
                                                     plc: Policy, parse: Parser, x: string, t: string)
    ensures GrepAndReplace(x, t) in GitCallsForRewritten(images, eventRef, repo, plc, parse) <==>
      t == repo.tag && exists i :: 0 <= i < |images| && images[i] == x && ContainerUpdate(images[i], eventRef, repo, plc, parse).Some?
    decreases |images|
  {
    if images != [] {
      var n := |images| - 1;
      var init := images[..n];
      GitCallsForRewrittenExact(init, eventRef, repo, plc, parse, x, t);
      var rest := GitCallsForRewritten(init, eventRef, repo, plc, parse);
      var tail := if ContainerUpdate(images[n], eventRef, repo, plc, parse).Some?
        then [GrepAndReplace(images[n], repo.tag), CommitAndPushAll("updating " + images[n] + " to " + repo.tag)]
        else [];
      assert GitCallsForRewritten(images, eventRef, repo, plc, parse) == rest + tail;
      assert forall i :: 0 <= i < n ==> init[i] == images[i];
      if t == repo.tag && exists i :: 0 <= i < |images| && images[i] == x && ContainerUpdate(images[i], eventRef, repo, plc, parse).Some? {
        var i :| 0 <= i < |images| && images[i] == x && ContainerUpdate(images[i], eventRef, repo, plc, parse).Some?;
        if i == n {
          assert tail[0] == GrepAndReplace(x, t);
        } else {
          assert init[i] == x;
        }
      }
    }
  }

  /** One iteration of createUpdatePlans' loop: a workload with a None policy is
      skipped, a checkForUpdate error skips it, and a workload with an update
      contributes its plan. */
  method CheckResource(resource: GenericResource, repo: Repository, env: ProviderEnv, now: string) returns (plans: seq<UpdatePlan>)
    modifies resource
    ensures plans == PlanOfValues(resource, old(resource.labels), old(resource.annotations), old(resource.images), repo, env)
    ensures resource.labels == old(resource.labels) && resource.annotations == old(resource.annotations)
    ensures resource.images == ImagesAfter(old(resource.labels), old(resource.annotations), old(resource.images), repo, env)
    ensures resource.specAnnotations ==
      SpecAfter(old(resource.labels), old(resource.annotations), old(resource.images), old(resource.specAnnotations), repo, env, now)
  {
    var plc := env.policyOf(resource.labels, resource.annotations);
    if plc.kind == PolicyTypeNone {
      return [];
    }
    var updated, shouldUpdateDeployment, err := CheckForUpdate(plc, repo, resource, env.parse, env.repoString, now);
    if err.Some? {
      return [];
    }
    if shouldUpdateDeployment {
      return [updated];
    }
    return [];
  }

  /** The provider: the cached workloads, and the observable effects it has had so
      far: notifications sent and calls made on the Git repository. */
  class Provider {
    var cache: seq<GenericResource>
    var sent: seq<Notification>
    var gitCalls: seq<GitCall>

    constructor (cache: seq<GenericResource>)
      ensures this.cache == cache && sent == [] && gitCalls == []
    {
      this.cache := cache;
      sent := [];
      gitCalls := [];
    }

    /** The inner loop of trackedImages: one tracked image per image that parses,
        in order. */
    static method TrackedOfImageList(images: seq<string>, schedule: string, trigger: TriggerType, plc: Policy, parse: Parser)
      returns (tracked: seq<TrackedImage>)
      ensures tracked == TrackedOfImages(images, schedule, trigger, plc, parse)
    {
      tracked := [];
      var j := 0;
      while j < |images|
        invariant 0 <= j <= |images|
        invariant tracked == TrackedOfImages(images[..j], schedule, trigger, plc, parse)
      {
        assert images[..j + 1][..j] == images[..j];
        var ref := parse(images[j]);
        if ref.Some? {
          tracked := tracked + [TrackedImage(ref.value, trigger, schedule, ProviderName, map[], plc)];
        }
        j := j + 1;
      }
      assert images[..j] == images;
    }

    /** TrackedImages: one entry per parseable image of each cached workload, in
        cache order, with the workload's schedule, trigger and policy and the
        provider name "kubernetes". */
    method TrackedImages(env: ProviderEnv) returns (trackedImages: seq<TrackedImage>, err: Option<string>)
      ensures trackedImages == TrackedOfResources(cache, env) && err.None?
    {
      trackedImages := [];
      var i := 0;
      while i < |cache|
        invariant 0 <= i <= |cache|
        invariant trackedImages == TrackedOfResources(cache[..i], env)
      {
        var gr := cache[i];
        assert cache[..i + 1][..i] == cache[..i];
        var labels := gr.labels;
        var annotations := gr.annotations;
        var plc := env.policyOf(labels, annotations);
        var schedule := PollSchedule(annotations, env.cronValid);
        var trigger := Policies.GetTriggerPolicy(labels, annotations, env.parseTrigger);
        var secrets: seq<string> := [];
        var specifiedSecret := GetImagePullSecretFromMeta(labels, annotations);
        if specifiedSecret != "" {
          secrets := secrets + [specifiedSecret];
        }
        var tracked := TrackedOfImageList(gr.images, schedule, trigger, plc, env.parse);
        trackedImages := trackedImages + tracked;
        i := i + 1;
      }
      assert cache[..i] == cache;
      return trackedImages, None;
    }

    /** createUpdatePlans: the plans of the cached workloads, in cache order, for
        workloads whose policy is not None and whose checkForUpdate reports an
        update; the error is always nil. Each workload checked is rewritten in place
        as checkForUpdate says. The cache holds each workload once. */
    method CreateUpdatePlans(repo: Repository, env: ProviderEnv, now: string) returns (impacted: seq<UpdatePlan>, err: Option<string>)
      requires Distinct(cache)
      modifies set r | r in cache
      ensures err.None?
      ensures impacted == old(PlansOf(cache, repo, env))
      ensures StatesOfResources(cache) == PlannedAll(old(StatesOfResources(cache)), repo, env, now)
    {
      ghost var states := StatesOfResources(cache);
      ghost var target := PlannedAll(states, repo, env, now);
      PlansOfByStates(cache, repo, env);
      impacted := CheckAll(states, target, repo, env, now);
      StatesOfResourcesEq(cache, target);
      return impacted, None;
    }

    /** The loop of createUpdatePlans over the cache, workload by workload. */
    method CheckAll(ghost states: seq<ResourceState>, ghost target: seq<ResourceState>,
                    repo: Repository, env: ProviderEnv, now: string)
      returns (impacted: seq<UpdatePlan>)
      requires Distinct(cache) && |states| == |cache| == |target|
      requires forall j :: 0 <= j < |cache| ==> StateOf(cache[j]) == states[j]
      requires forall j :: 0 <= j < |cache| ==> target[j] == Planned(states[j], repo, env, now)
      modifies set r | r in cache
      ensures impacted == PlansOfStates(cache, states, repo, env)
      ensures forall j :: 0 <= j < |cache| ==> StateOf(cache[j]) == target[j]
    {
      impacted := [];
      var i := 0;
      while i < |cache|
        invariant 0 <= i <= |cache|
        invariant impacted == PlansOfStates(cache[..i], states[..i], repo, env)
        invariant forall j :: 0 <= j < i ==> StateOf(cache[j]) == target[j]
        invariant forall j :: i <= j < |cache| ==> StateOf(cache[j]) == states[j]
      {
        PlansOfStatesStep(cache, states, i, repo, env);
        var plans := CheckOne(i, states, target, repo, env, now);
        impacted := impacted + plans;
        i := i + 1;
      }
      assert cache[..i] == cache && states[..i] == states;
    }

    /** One workload of createUpdatePlans: checkForUpdate runs on it, and no
        other cached workload changes. */
    method CheckOne(i: nat, ghost states: seq<ResourceState>, ghost target: seq<ResourceState>,
                    repo: Repository, env: ProviderEnv, now: string)
      returns (plans: seq<UpdatePlan>)
      requires Distinct(cache) && |states| == |cache| == |target| && i < |cache|
      requires target[i] == Planned(states[i], repo, env, now)
      requires forall j :: 0 <= j < i ==> StateOf(cache[j]) == target[j]
      requires forall j :: i <= j < |cache| ==> StateOf(cache[j]) == states[j]
      modifies set r | r in cache
      ensures plans == PlanOfValues(cache[i], states[i].labels, states[i].annotations, states[i].images, repo, env)
      ensures forall j :: 0 <= j <= i ==> StateOf(cache[j]) == target[j]
      ensures forall j :: i < j < |cache| ==> StateOf(cache[j]) == states[j]
    {
      var resource := cache[i];
      assert forall j :: 0 <= j < |cache| && j != i ==> cache[j] != resource;
      plans := CheckResource(resource, repo, env, now);
    }

    /** One executed plan of updateDeployments: notify, set the change-cause
        annotation, rewrite and commit the matching images in Git, notify. */
    method Execute(plan: UpdatePlan, env: ProviderEnv, timestamp: string, ghost st: ResourceState)
      requires Executed(plan) && plan.resource != null && StateOf(plan.resource) == st
      modifies this, plan.resource
      ensures cache == old(cache)
      ensures sent == old(sent) + NotificationsFor(plan.resource, st.annotations, st.images, plan, timestamp, env)
      ensures gitCalls == old(gitCalls) + GitCallsFor(st.images, plan.currentVersion, plan.newVersion)
      ensures StateOf(plan.resource) == Annotated(st, plan, timestamp)
    {
      var resource := plan.resource;
      var annotations := resource.annotations;
      var notes := NotificationsFor(resource, annotations, resource.images, plan, timestamp, env);
      sent := sent + [notes[0]];
      annotations := annotations[ChangeCauseAnnotation := ChangeCause(plan.currentVersion, plan.newVersion, timestamp)];
      resource.SetAnnotations(annotations);
      RewriteInGit(resource.images, plan.currentVersion, plan.newVersion);
      sent := sent + [notes[1]];
    }

    /** The Git part of updateDeployments for one workload: every image whose tag
        part is the current version is rewritten to the new version and committed. */
    method RewriteInGit(images: seq<string>, currentVersion: string, newVersion: string)
      modifies this
      ensures cache == old(cache) && sent == old(sent)
      ensures gitCalls == old(gitCalls) + GitCallsFor(images, currentVersion, newVersion)
    {
      var calls := GitCallsLoop(images, currentVersion, newVersion);
      gitCalls := gitCalls + calls;
    }

    /** The loop over the workload's images, in order, issuing a GrepAndReplace
        and a CommitAndPushAll for each image on the current version. */
    static method GitCallsLoop(images: seq<string>, currentVersion: string, newVersion: string)
      returns (calls: seq<GitCall>)
      ensures calls == GitCallsFor(images, currentVersion, newVersion)
    {
      calls := [];
      var j := 0;
      while j < |images|
        invariant 0 <= j <= |images|
        invariant calls == GitCallsFor(images[..j], currentVersion, newVersion)
      {
        GitCallsForStep(images, j, currentVersion, newVersion);
        var img := images[j];
        if TagIs(img, currentVersion) {
          calls := calls + [GrepAndReplace(img, newVersion), CommitAndPushAll("updating " + img + " to " + newVersion)];
        }
        j := j + 1;
      }
      assert images[..j] == images;
    }

    /** updateDeployments: plans whose versions are equal are skipped entirely; each
        other plan, in order, gets its change-cause annotation, its Git calls and
        its two notifications (commit errors are only logged), and its workload is
        reported as updated. The error is always nil. */
    method UpdateDeployments(plans: seq<UpdatePlan>, env: ProviderEnv, timestamp: string)
      returns (updated: seq<GenericResource?>, err: Option<string>)
      requires ExecutablePlans(plans)
      modifies this, ExecutedResources(plans)
      ensures cache == old(cache) && err.None?
      ensures updated == UpdatedOf(plans)
      ensures sent == old(sent) + NotificationsOf(plans, old(StatesOf(plans)), timestamp, env)
      ensures gitCalls == old(gitCalls) + GitCallsOf(plans, old(StatesOf(plans)))
      ensures forall i :: 0 <= i < |plans| && Executed(plans[i]) ==>
        StateOf(plans[i].resource) == Annotated(old(StatesOf(plans))[i], plans[i], timestamp)
      ensures forall i :: 0 <= i < |cache| && cache[i] !in ExecutedResources(plans) ==>
        StateOf(cache[i]) == old(StateOf(cache[i]))
    {
      ghost var states := StatesOf(plans);
      updated := [];
      var i := 0;
      while i < |plans|
        invariant 0 <= i <= |plans|
        invariant cache == old(cache)
        invariant updated == UpdatedOf(plans[..i])
        invariant sent == old(sent) + NotificationsOf(plans[..i], states[..i], timestamp, env)
        invariant gitCalls == old(gitCalls) + GitCallsOf(plans[..i], states[..i])
        invariant forall j :: 0 <= j < i && Executed(plans[j]) ==>
          StateOf(plans[j].resource) == Annotated(states[j], plans[j], timestamp)
        invariant forall j :: i <= j < |plans| && Executed(plans[j]) ==> StateOf(plans[j].resource) == states[j]
      {
        UpdateDeploymentsStep(plans, states, i, timestamp, env, old(sent), old(gitCalls));
        UpdateOne(plans, states, i, env, timestamp);
        if Executed(plans[i]) {
          updated := updated + [plans[i].resource];
        }
        i := i + 1;
      }
      assert plans[..i] == plans && states[..i] == states;
      return updated, None;
    }

    /** One plan of updateDeployments: a plan whose versions are equal changes
        nothing; otherwise its workload is annotated and its Git calls and
        notifications are made. No other workload changes. */
    method UpdateOne(plans: seq<UpdatePlan>, ghost states: seq<ResourceState>, i: nat, env: ProviderEnv, timestamp: string)
      requires ExecutablePlans(plans) && |states| == |plans| && i < |plans|
      requires forall j :: 0 <= j < i && Executed(plans[j]) ==>
        StateOf(plans[j].resource) == Annotated(states[j], plans[j], timestamp)
      requires forall j :: i <= j < |plans| && Executed(plans[j]) ==> StateOf(plans[j].resource) == states[j]
      modifies this, ExecutedResources(plans)
      ensures cache == old(cache)
      ensures sent == old(sent) + StepNotes(plans, states, i, timestamp, env)
      ensures gitCalls == old(gitCalls) + StepCalls(plans, states, i)
      ensures forall j :: 0 <= j <= i && Executed(plans[j]) ==>
        StateOf(plans[j].resource) == Annotated(states[j], plans[j], timestamp)
      ensures forall j :: i < j < |plans| && Executed(plans[j]) ==> StateOf(plans[j].resource) == states[j]
    {
      var plan := plans[i];
      if plan.currentVersion == plan.newVersion {
        return;
      }
      assert forall j :: 0 <= j < |plans| && j != i && Executed(plans[j]) ==> plans[j].resource != plan.resource;
      Execute(plan, env, timestamp, states[i]);
    }

    /** processEvent: plan the event's updates over the cache; with no plans
        nothing further happens; otherwise the approved plans are carried out by
        updateDeployments. The notifications and Git calls are those of the
        approved plans, read from the workloads as createUpdatePlans left them. */
    method ProcessEvent(repo: Repository, env: ProviderEnv, now: string, timestamp: string)
      returns (updated: seq<GenericResource?>, err: Option<string>)
      requires Distinct(cache)
      modifies this, set r | r in cache
      ensures cache == old(cache) && err.None?
      ensures old(PlansOf(cache, repo, env)) == [] ==> updated == [] && sent == old(sent) && gitCalls == old(gitCalls)
      ensures var approved := ApprovedOf(old(PlansOf(cache, repo, env)), env.approved);
        && updated == UpdatedOf(approved)
        && sent == old(sent) + NotificationsOf(approved, old(PlannedStates(approved, repo, env, now)), timestamp, env)
        && gitCalls == old(gitCalls) + GitCallsOf(approved, old(PlannedStates(approved, repo, env, now)))
      ensures var approved := ApprovedOf(old(PlansOf(cache, repo, env)), env.approved);
        ExecutablePlans(approved)
      ensures var approved := ApprovedOf(old(PlansOf(cache, repo, env)), env.approved);
        forall k :: 0 <= k < |approved| && Executed(approved[k]) ==>
          StateOf(approved[k].resource) == Annotated(old(PlannedStates(approved, repo, env, now))[k], approved[k], timestamp)
      ensures var approved := ApprovedOf(old(PlansOf(cache, repo, env)), env.approved);
        forall i :: 0 <= i < |cache| && cache[i] !in ExecutedResources(approved) ==>
          StateOf(cache[i]) == Planned(old(StatesOfResources(cache))[i], repo, env, now)
    {
      ghost var before := StatesOfResources(cache);
      var plans, approvedPlans := PlanAndApprove(repo, env, now);
      ghost var planned := StatesOfResources(cache);
      assert planned == PlannedAll(before, repo, env, now);
      if |plans| == 0 {
        return [], None;
      }
      updated, err := UpdateDeployments(approvedPlans, env, timestamp);
    }

    /** The first half of processEvent: createUpdatePlans over the cache, then the
        approval filter. The approved plans name distinct workloads, and each of
        those workloads is in the state createUpdatePlans left it in. */
    method PlanAndApprove(repo: Repository, env: ProviderEnv, now: string)
      returns (plans: seq<UpdatePlan>, approvedPlans: seq<UpdatePlan>)
      requires Distinct(cache)
      modifies set r | r in cache
      ensures plans == old(PlansOf(cache, repo, env))
      ensures approvedPlans == ApprovedOf(plans, env.approved)
      ensures ExecutablePlans(approvedPlans)
      ensures StatesOf(approvedPlans) == old(PlannedStates(approvedPlans, repo, env, now))
      ensures StatesOfResources(cache) == PlannedAll(old(StatesOfResources(cache)), repo, env, now)
    {
      ghost var approved := ApprovedOf(PlansOf(cache, repo, env), env.approved);
      ghost var planned := PlannedStates(approved, repo, env, now);
      ghost var states := StatesOfResources(cache);
      PlansOfDistinct(cache, repo, env);
      ApprovedOfDistinct(PlansOf(cache, repo, env), env.approved);
      ghost var ks := PlannedAtIndex(cache, approved, repo, env, now);
      var err;
      plans, err := CreateUpdatePlans(repo, env, now);
      approvedPlans := ApprovedOf(plans, env.approved);
      forall i | 0 <= i < |approvedPlans|
        ensures StatesOf(approvedPlans)[i] == planned[i]
      {
        assert StatesOfResources(cache)[ks[i]] == StateOf(cache[ks[i]]);
      }
    }
  }
}
