/** The Kubernetes workload abstraction and checkForUpdate: the per-container
    decision that rewrites a workload's images in place for a repository event. */
module KubeUpdates {

  import opened Wrappers
  import opened Types
  import HelmCommon

  /** A workload as the provider sees it: identity, metadata, the pod template's
      annotations ("spec annotations") and the image of each container, in
      container order. */
  class GenericResource {
    const identifier: string
    const name: string
    const namespace: string
    const kind: string
    var labels: map<string, string>
    var annotations: map<string, string>
    var specAnnotations: map<string, string>
    var images: seq<string>

    constructor (identifier: string, name: string, namespace: string, kind: string,
                 labels: map<string, string>, annotations: map<string, string>,
                 specAnnotations: map<string, string>, images: seq<string>)
      ensures this.identifier == identifier && this.name == name
      ensures this.namespace == namespace && this.kind == kind
      ensures this.labels == labels && this.annotations == annotations
      ensures this.specAnnotations == specAnnotations && this.images == images
    {
      this.identifier := identifier;
      this.name := name;
      this.namespace := namespace;
      this.kind := kind;
      this.labels := labels;
      this.annotations := annotations;
      this.specAnnotations := specAnnotations;
      this.images := images;
    }

    /** UpdateContainer: the container at `index` gets image `image`. */
    method UpdateContainer(index: nat, image: string)
      requires index < |images|
      modifies this
      ensures images == old(images)[index := image]
      ensures labels == old(labels) && annotations == old(annotations)
      ensures specAnnotations == old(specAnnotations)
    {
      images := images[index := image];
    }

    /** SetAnnotations */
    method SetAnnotations(a: map<string, string>)
      modifies this
      ensures annotations == a
      ensures labels == old(labels) && specAnnotations == old(specAnnotations) && images == old(images)
    {
      annotations := a;
    }
  }

  /** The Kubernetes update plan. The resource is null in the empty plan. */
  datatype UpdatePlan = UpdatePlan(resource: GenericResource?, currentVersion: string, newVersion: string)

  const EmptyPlan: UpdatePlan := UpdatePlan(null, "", "")

  /** The decision for one container image: when the image parses, names the
      event's repository and the policy accepts its tag for the event's tag, the
      image it is rewritten to and its old tag. */
  function ContainerUpdate(image: string, eventRef: Reference, repo: Repository, plc: Policy, parse: Parser): (r: Option<(string, string)>)
    ensures r.Some? <==>
      && parse(image).Some?
      && parse(image).value.repository == eventRef.repository
      && plc.shouldUpdate(parse(image).value.tag, eventRef.tag) == Success(true)
    ensures r.Some? ==> r.value == (HelmCommon.GetUpdatedImage(parse(image).value, repo.tag), parse(image).value.tag)
  {
    match parse(image)
    case None => None
    case Some(ref) =>
      if ref.repository != eventRef.repository then None
      else match plc.shouldUpdate(ref.tag, eventRef.tag)
        case Success(true) => Some((HelmCommon.GetUpdatedImage(ref, repo.tag), ref.tag))
        case _ => None
  }

  /** The container images after the event: each accepted container is rewritten
      to the event's tag, every other container keeps its image. */
  function RewriteImages(images: seq<string>, eventRef: Reference, repo: Repository, plc: Policy, parse: Parser): (r: seq<string>)
    ensures |r| == |images|
  {
    seq(|images|, i requires 0 <= i < |images| =>
      match ContainerUpdate(images[i], eventRef, repo, plc, parse)
      case Some(u) => u.0
      case None => images[i])
  }

  /** Only the containers the decision accepts change: one whose image does not
      parse, names another repository, or whose tag the policy rejects or fails on
      keeps its image; an accepted one gets the rewritten image. */
  lemma RewriteImagesSpec(images: seq<string>, eventRef: Reference, repo: Repository, plc: Policy, parse: Parser, i: nat)
    requires i < |images|
    ensures parse(images[i]).None? ==> RewriteImages(images, eventRef, repo, plc, parse)[i] == images[i]
    ensures parse(images[i]).Some? && parse(images[i]).value.repository != eventRef.repository ==>
      RewriteImages(images, eventRef, repo, plc, parse)[i] == images[i]
    ensures parse(images[i]).Some? && plc.shouldUpdate(parse(images[i]).value.tag, eventRef.tag) != Success(true) ==>
      RewriteImages(images, eventRef, repo, plc, parse)[i] == images[i]
    ensures ContainerUpdate(images[i], eventRef, repo, plc, parse).Some? ==>
      RewriteImages(images, eventRef, repo, plc, parse)[i] == HelmCommon.GetUpdatedImage(parse(images[i]).value, repo.tag)
  {
  }

  /** Rewriting one more container extends the rewritten prefix by that
      container's decision. */
  lemma RewriteImagesStep(images: seq<string>, eventRef: Reference, repo: Repository, plc: Policy, parse: Parser, k: nat)
    requires k < |images|
    ensures RewriteImages(images[..k + 1], eventRef, repo, plc, parse)
      == RewriteImages(images[..k], eventRef, repo, plc, parse)
         + [match ContainerUpdate(images[k], eventRef, repo, plc, parse) case Some(u) => u.0 case None => images[k]]
  {
    var a := RewriteImages(images[..k + 1], eventRef, repo, plc, parse);
    var b := RewriteImages(images[..k], eventRef, repo, plc, parse);
    assert forall j :: 0 <= j < k ==> images[..k + 1][j] == images[..k][j];
    assert forall j :: 0 <= j < k ==> a[j] == b[j];
  }

  /** Some container is rewritten. */
  predicate AnyUpdated(images: seq<string>, eventRef: Reference, repo: Repository, plc: Policy, parse: Parser)
  {
    exists i :: 0 <= i < |images| && ContainerUpdate(images[i], eventRef, repo, plc, parse).Some?
  }

  /** The old tag of the last rewritten container, if any. */
  function LastUpdatedTag(images: seq<string>, eventRef: Reference, repo: Repository, plc: Policy, parse: Parser): (r: Option<string>)
    ensures r.Some? <==> AnyUpdated(images, eventRef, repo, plc, parse)
    ensures r.Some? ==>
      exists i :: 0 <= i < |images| && ContainerUpdate(images[i], eventRef, repo, plc, parse).Some? &&
        ContainerUpdate(images[i], eventRef, repo, plc, parse).value.1 == r.value
    decreases |images|
  {
    if images == [] then None
    else
      var init := images[..|images| - 1];
      var last := images[|images| - 1];
      assert forall j :: 0 <= j < |init| ==> init[j] == images[j];
      match ContainerUpdate(last, eventRef, repo, plc, parse)
      case Some(u) => Some(u.1)
      case None =>
        assert AnyUpdated(images, eventRef, repo, plc, parse) ==> AnyUpdated(init, eventRef, repo, plc, parse) by {
          if AnyUpdated(images, eventRef, repo, plc, parse) {
            var i :| 0 <= i < |images| && ContainerUpdate(images[i], eventRef, repo, plc, parse).Some?;
            assert i < |init|;
          }
        }
        LastUpdatedTag(init, eventRef, repo, plc, parse)
  }

  /** Replacing the first element after a prefix moves the prefix boundary. */
  lemma SpliceAt<T>(done: seq<T>, rest: seq<T>, x: T)
    requires rest != []
    ensures (done + rest)[|done| := x] == (done + [x]) + rest[1..]
    ensures done + rest == (done + [rest[0]]) + rest[1..]
  {
  }

  /** Setting a key twice to the same value is setting it once. */
  lemma SetTwice<K, V>(m: map<K, V>, k: K, v: V)
    ensures m[k := v][k := v] == m[k := v]
  {
  }

  /** Looking at one more container: some container is rewritten iff one was
      before or this one is, and the last rewritten tag is this one's if it is. */
  lemma UpdatedStep(images: seq<string>, eventRef: Reference, repo: Repository, plc: Policy, parse: Parser, k: nat)
    requires k < |images|
    ensures AnyUpdated(images[..k + 1], eventRef, repo, plc, parse) ==
      (AnyUpdated(images[..k], eventRef, repo, plc, parse) || ContainerUpdate(images[k], eventRef, repo, plc, parse).Some?)
    ensures LastUpdatedTag(images[..k + 1], eventRef, repo, plc, parse) ==
      match ContainerUpdate(images[k], eventRef, repo, plc, parse)
      case Some(u) => Some(u.1)
      case None => LastUpdatedTag(images[..k], eventRef, repo, plc, parse)
  {
    assert images[..k + 1][..k] == images[..k];
    assert images[..k + 1][k] == images[k];
  }

  /** setUpdateTime: the update-time spec annotation is set to the clock reading,
      every other spec annotation is kept. */
  method SetUpdateTime(resource: GenericResource, now: string)
    modifies resource
    ensures resource.specAnnotations == old(resource.specAnnotations)[UpdateTimeAnnotation := now]
    ensures resource.labels == old(resource.labels) && resource.annotations == old(resource.annotations)
    ensures resource.images == old(resource.images)
  {
    var specAnnotations := resource.specAnnotations;
    specAnnotations := specAnnotations[UpdateTimeAnnotation := now];
    resource.specAnnotations := specAnnotations;
  }

  /** One iteration of checkForUpdate's loop over the containers: the container
      at `idx` is skipped when its image does not parse, names another repository,
      or the policy rejects or fails on its tag; otherwise the update time is set
      and the container is rewritten. Returns the container's old tag when it was
      rewritten. */
  method CheckContainer(plc: Policy, repo: Repository, eventRef: Reference, resource: GenericResource, idx: nat,
                        parse: Parser, now: string)
    returns (oldTag: Option<string>)
    requires idx < |resource.images|
    modifies resource
    ensures resource.labels == old(resource.labels) && resource.annotations == old(resource.annotations)
    ensures var decision := ContainerUpdate(old(resource.images[idx]), eventRef, repo, plc, parse);
      && oldTag == (match decision case Some(u) => Some(u.1) case None => None)
      && resource.images == old(resource.images)[idx := match decision case Some(u) => u.0 case None => old(resource.images[idx])]
      && resource.specAnnotations == if decision.Some? then old(resource.specAnnotations)[UpdateTimeAnnotation := now]
                                     else old(resource.specAnnotations)
  {
    var containerImageRef := parse(resource.images[idx]);
    if containerImageRef.None? || containerImageRef.value.repository != eventRef.repository {
      return None;
    }
    var shouldUpdateContainer := plc.shouldUpdate(containerImageRef.value.tag, eventRef.tag);
    if shouldUpdateContainer.Failure? || !shouldUpdateContainer.value {
      return None;
    }
    SetUpdateTime(resource, now);
    resource.UpdateContainer(idx, HelmCommon.GetUpdatedImage(containerImageRef.value, repo.tag));
    return Some(containerImageRef.value.tag);
  }

  /** checkForUpdate. If the event's repository does not parse, the empty plan,
      false and an error are returned and the resource is untouched. Otherwise the
      error is always nil (the loop's errors are shadowed), the containers are
      rewritten as RewriteImages says, the resource is to be updated iff some
      container was rewritten, and then the plan names the resource, the event's
      tag as new version and the last rewritten container's old tag as current
      version, and the update-time spec annotation is set. `now` is the clock
      reading; `repoString` is Repository.String(). */
  method CheckForUpdate(plc: Policy, repo: Repository, resource: GenericResource, parse: Parser,
                        repoString: Repository -> string, now: string)
    returns (plan: UpdatePlan, shouldUpdateDeployment: bool, err: Option<string>)
    modifies resource
    ensures resource.labels == old(resource.labels) && resource.annotations == old(resource.annotations)
    ensures parse(repoString(repo)).None? ==>
      && plan == EmptyPlan && !shouldUpdateDeployment && err.Some?
      && resource.images == old(resource.images)
      && resource.specAnnotations == old(resource.specAnnotations)
    ensures parse(repoString(repo)).Some? ==>
      var eventRef := parse(repoString(repo)).value;
      && err.None?
      && resource.images == RewriteImages(old(resource.images), eventRef, repo, plc, parse)
      && shouldUpdateDeployment == AnyUpdated(old(resource.images), eventRef, repo, plc, parse)
      && (shouldUpdateDeployment ==>
            && plan == UpdatePlan(resource, LastUpdatedTag(old(resource.images), eventRef, repo, plc, parse).value, repo.tag)
            && resource.specAnnotations == old(resource.specAnnotations)[UpdateTimeAnnotation := now])
      && (!shouldUpdateDeployment ==>
            plan == EmptyPlan && resource.specAnnotations == old(resource.specAnnotations))
  {
    var eventRepoRef := parse(repoString(repo));
    if eventRepoRef.None? {
      return EmptyPlan, false, Some("failed to parse event repository");
    }
    plan, shouldUpdateDeployment := CheckContainers(plc, repo, eventRepoRef.value, resource, parse, now);
    return plan, shouldUpdateDeployment, None;
  }

  /** The loop of checkForUpdate over the containers, in order. */
  method CheckContainers(plc: Policy, repo: Repository, eventRef: Reference, resource: GenericResource, parse: Parser, now: string)
    returns (plan: UpdatePlan, shouldUpdateDeployment: bool)
    modifies resource
    ensures resource.labels == old(resource.labels) && resource.annotations == old(resource.annotations)
    ensures resource.images == RewriteImages(old(resource.images), eventRef, repo, plc, parse)
    ensures shouldUpdateDeployment == AnyUpdated(old(resource.images), eventRef, repo, plc, parse)
    ensures shouldUpdateDeployment ==>
      && plan == UpdatePlan(resource, LastUpdatedTag(old(resource.images), eventRef, repo, plc, parse).value, repo.tag)
      && resource.specAnnotations == old(resource.specAnnotations)[UpdateTimeAnnotation := now]
    ensures !shouldUpdateDeployment ==> plan == EmptyPlan && resource.specAnnotations == old(resource.specAnnotations)
  {
    plan := EmptyPlan;
    shouldUpdateDeployment := false;
    ghost var images0 := resource.images;
    ghost var spec0 := resource.specAnnotations;
    ghost var last: Option<string> := None;
    var idx := 0;
    while idx < |resource.images|
      invariant 0 <= idx <= |images0|
      invariant resource.labels == old(resource.labels) && resource.annotations == old(resource.annotations)
      invariant resource.images == RewriteImages(images0[..idx], eventRef, repo, plc, parse) + images0[idx..]
      invariant last == LastUpdatedTag(images0[..idx], eventRef, repo, plc, parse)
      invariant shouldUpdateDeployment == last.Some?
      invariant plan == if last.Some? then UpdatePlan(resource, last.value, repo.tag) else EmptyPlan
      invariant resource.specAnnotations == if last.Some? then spec0[UpdateTimeAnnotation := now] else spec0
    {
      plan, shouldUpdateDeployment, last := CheckStep(plc, repo, eventRef, resource, parse, now, idx, images0, spec0, last, plan, shouldUpdateDeployment);
      idx := idx + 1;
    }
    assert images0[..idx] == images0;
  }

  /** One container of checkForUpdate's loop, moving the loop's bookkeeping from
      the first `idx` containers to the first `idx + 1`. */
  method CheckStep(plc: Policy, repo: Repository, eventRef: Reference, resource: GenericResource, parse: Parser, now: string,
                   idx: nat, ghost images0: seq<string>, ghost spec0: map<string, string>, ghost last: Option<string>,
                   plan: UpdatePlan, should: bool)
    returns (plan': UpdatePlan, should': bool, ghost last': Option<string>)
    requires idx < |images0|
    requires resource.images == RewriteImages(images0[..idx], eventRef, repo, plc, parse) + images0[idx..]
    requires last == LastUpdatedTag(images0[..idx], eventRef, repo, plc, parse)
    requires should == last.Some?
    requires plan == if last.Some? then UpdatePlan(resource, last.value, repo.tag) else EmptyPlan
    requires resource.specAnnotations == if last.Some? then spec0[UpdateTimeAnnotation := now] else spec0
    modifies resource
    ensures resource.labels == old(resource.labels) && resource.annotations == old(resource.annotations)
    ensures resource.images == RewriteImages(images0[..idx + 1], eventRef, repo, plc, parse) + images0[idx + 1..]
    ensures last' == LastUpdatedTag(images0[..idx + 1], eventRef, repo, plc, parse)
    ensures should' == last'.Some?
    ensures plan' == if last'.Some? then UpdatePlan(resource, last'.value, repo.tag) else EmptyPlan
    ensures resource.specAnnotations == if last'.Some? then spec0[UpdateTimeAnnotation := now] else spec0
  {
    ghost var done := RewriteImages(images0[..idx], eventRef, repo, plc, parse);
    ghost var decision := ContainerUpdate(images0[idx], eventRef, repo, plc, parse);
    ghost var next := match decision case Some(u) => u.0 case None => images0[idx];
    RewriteImagesStep(images0, eventRef, repo, plc, parse, idx);
    UpdatedStep(images0, eventRef, repo, plc, parse, idx);
    assert images0[idx..][1..] == images0[idx + 1..];
    SpliceAt(done, images0[idx..], next);
    assert resource.images[idx] == images0[idx];
    var oldTag := CheckContainer(plc, repo, eventRef, resource, idx, parse, now);
    plan', should', last' := plan, should, last;
    if oldTag.Some? {
      SetTwice(spec0, UpdateTimeAnnotation, now);
      should' := true;
      plan' := UpdatePlan(resource, oldTag.value, repo.tag);
      last' := oldTag;
    }
  }
}
