/** The web UI's resource store (ui/src/store/modules/resources.js): the
    mutations that annotate the resources fetched from the server with the
    fields the views read (`_required_approvals`, `_trigger_poll`, `_bow_opts`),
    mark a resource as loading, and record the last error. JavaScript objects
    are modelled as instances of a class whose fields the mutations assign; a
    missing or empty string is falsy, as in JavaScript. */
module UiResources {

  import opened Wrappers
  import opened Strings
  import opened Types
  import Policies

  const BowPrefix: string := "bow.sh/"
  const ApprovalsAnnotation: string := "bow.sh/approvals"

  /** JavaScript truthiness of `m[key]` for a string-valued object. */
  predicate Truthy(m: map<string, string>, key: string)
  {
    key in m && m[key] != ""
  }

  /** `_trigger_poll`: a truthy trigger annotation decides, else a truthy
      trigger label, else false. */
  function TriggerPollOf(labels: map<string, string>, annotations: map<string, string>): (poll: bool)
    ensures Truthy(annotations, TriggerLabel) ==> (poll <==> annotations[TriggerLabel] == "poll")
    ensures !Truthy(annotations, TriggerLabel) && Truthy(labels, TriggerLabel) ==> (poll <==> labels[TriggerLabel] == "poll")
    ensures !Truthy(annotations, TriggerLabel) && !Truthy(labels, TriggerLabel) ==> !poll
  {
    if Truthy(annotations, TriggerLabel) then annotations[TriggerLabel] == "poll"
    else if Truthy(labels, TriggerLabel) then labels[TriggerLabel] == "poll"
    else false
  }

  /** `_bow_opts`: the labels and annotations whose key starts with "bow.sh/";
      an annotation wins over a label with the same key. */
  function BowOpts(labels: map<string, string>, annotations: map<string, string>): (opts: map<string, string>)
    ensures forall k :: k in opts <==> HasPrefix(k, BowPrefix) && (k in labels || k in annotations)
    ensures forall k :: k in opts ==> opts[k] == if k in annotations then annotations[k] else labels[k]
  {
    map k | k in labels.Keys + annotations.Keys && HasPrefix(k, BowPrefix)
      :: if k in annotations then annotations[k] else labels[k]
  }

  /** An empty trigger annotation is ignored by the UI, which falls through to
      the label; the server's rule lets the key's mere presence decide. */
  lemma EmptyAnnotationFallsThrough(labels: map<string, string>, annotations: map<string, string>)
    requires TriggerLabel in annotations && annotations[TriggerLabel] == ""
    ensures TriggerPollOf(labels, annotations) == TriggerPollOf(labels, annotations - {TriggerLabel})
  {
  }

  /** When every trigger value present is non-empty and one is present, the UI
      shows poll exactly when the server's rule resolves the trigger to poll,
      given the server's parser of trigger names. */
  lemma {:induction false} UiAgreesWithServer(
    labels: map<string, string>,
    annotations: map<string, string>,
    parseTrigger: string -> TriggerType)
    requires forall s :: parseTrigger(s) == (if s == "poll" then TriggerTypePoll else TriggerTypeDefault)
    requires TriggerLabel in annotations ==> annotations[TriggerLabel] != ""
    requires TriggerLabel in labels ==> labels[TriggerLabel] != ""
    requires TriggerLabel in annotations || TriggerLabel in labels
    ensures TriggerPollOf(labels, annotations) <==>
              Policies.GetTriggerPolicy(labels, annotations, parseTrigger) == TriggerTypePoll
  {
    if TriggerLabel in annotations {
      assert parseTrigger(annotations[TriggerLabel]) == (if annotations[TriggerLabel] == "poll" then TriggerTypePoll else TriggerTypeDefault);
    } else {
      assert parseTrigger(labels[TriggerLabel]) == (if labels[TriggerLabel] == "poll" then TriggerTypePoll else TriggerTypeDefault);
    }
  }

  /** Without any trigger key the UI shows no poll trigger while the server
      polls. */
  lemma NoTriggerKeyDisagrees(labels: map<string, string>, annotations: map<string, string>, parseTrigger: string -> TriggerType)
    requires TriggerLabel !in annotations && TriggerLabel !in labels
    ensures !TriggerPollOf(labels, annotations)
    ensures Policies.GetTriggerPolicy(labels, annotations, parseTrigger) == TriggerTypePoll
  {
  }

  /** A resource as the server sends it, with the fields the mutations add.
      `requiredApprovals` and `triggerPoll` are None while unset; an unset
      `_loading` reads as false. */
  class Resource {
    const identifier: string
    const labels: map<string, string>
    const annotations: map<string, string>
    var requiredApprovals: Option<string>
    var triggerPoll: Option<bool>
    var bowOpts: Option<map<string, string>>
    var loading: bool

    constructor (identifier: string, labels: map<string, string>, annotations: map<string, string>)
      ensures this.identifier == identifier && this.labels == labels && this.annotations == annotations
      ensures requiredApprovals.None? && triggerPoll.None? && bowOpts.None? && !loading
    {
      this.identifier := identifier;
      this.labels := labels;
      this.annotations := annotations;
      requiredApprovals := None;
      triggerPoll := None;
      bowOpts := None;
      loading := false;
    }

    /** The fields SET_RESOURCES gives this resource, given its previous
        `_required_approvals`. */
    ghost predicate Annotated(approvalsBefore: Option<string>)
      reads this
    {
      && requiredApprovals == (if Truthy(annotations, ApprovalsAnnotation) then Some(annotations[ApprovalsAnnotation]) else approvalsBefore)
      && triggerPoll == Some(TriggerPollOf(labels, annotations))
      && bowOpts == Some(BowOpts(labels, annotations))
    }
  }

  /** Visiting one more label adds it when it carries the prefix. */
  lemma LabelStep(labels: map<string, string>, todo: set<string>, key: string)
    requires key in todo && todo <= labels.Keys
    ensures BowOpts(labels - (todo - {key}), map[]) ==
              if HasPrefix(key, BowPrefix) then BowOpts(labels - todo, map[])[key := labels[key]]
              else BowOpts(labels - todo, map[])
  {
  }

  /** Visiting one more annotation writes it when it carries the prefix. */
  lemma AnnotationStep(labels: map<string, string>, annotations: map<string, string>, todo: set<string>, key: string)
    requires key in todo && todo <= annotations.Keys
    ensures BowOpts(labels, annotations - (todo - {key})) ==
              if HasPrefix(key, BowPrefix) then BowOpts(labels, annotations - todo)[key := annotations[key]]
              else BowOpts(labels, annotations - todo)
  {
  }

  /** The first key loop of SET_RESOURCES: the "bow.sh/" labels. */
  method CollectBowLabels(labels: map<string, string>) returns (opts: map<string, string>)
    ensures opts == BowOpts(labels, map[])
  {
    opts := map[];
    var todo := labels.Keys;
    while todo != {}
      invariant todo <= labels.Keys
      invariant opts == BowOpts(labels - todo, map[])
      decreases |todo|
    {
      var key :| key in todo;
      LabelStep(labels, todo, key);
      todo := todo - {key};
      if HasPrefix(key, BowPrefix) {
        opts := opts[key := labels[key]];
      }
    }
    assert labels - {} == labels;
  }

  /** The second key loop of SET_RESOURCES: the "bow.sh/" annotations, written
      over the labels collected before. */
  method AddBowAnnotations(labels: map<string, string>, annotations: map<string, string>, opts0: map<string, string>)
    returns (opts: map<string, string>)
    requires opts0 == BowOpts(labels, map[])
    ensures opts == BowOpts(labels, annotations)
  {
    opts := opts0;
    var todo := annotations.Keys;
    assert annotations - todo == map[];
    while todo != {}
      invariant todo <= annotations.Keys
      invariant opts == BowOpts(labels, annotations - todo)
      decreases |todo|
    {
      var key :| key in todo;
      AnnotationStep(labels, annotations, todo, key);
      todo := todo - {key};
      if HasPrefix(key, BowPrefix) {
        opts := opts[key := annotations[key]];
      }
    }
    assert annotations - {} == annotations;
  }

  /** Both key loops of SET_RESOURCES. */
  method CollectBowOpts(labels: map<string, string>, annotations: map<string, string>)
    returns (opts: map<string, string>)
    ensures opts == BowOpts(labels, annotations)
  {
    opts := CollectBowLabels(labels);
    opts := AddBowAnnotations(labels, annotations, opts);
  }

  /** The body of SET_RESOURCES for one resource. */
  method Annotate(r: Resource)
    modifies r
    ensures r.Annotated(old(r.requiredApprovals))
    ensures r.loading == old(r.loading)
  {
    if Truthy(r.annotations, ApprovalsAnnotation) {
      r.requiredApprovals := Some(r.annotations[ApprovalsAnnotation]);
    }
    if Truthy(r.annotations, TriggerLabel) {
      r.triggerPoll := Some(r.annotations[TriggerLabel] == "poll");
    } else if Truthy(r.labels, TriggerLabel) {
      r.triggerPoll := Some(r.labels[TriggerLabel] == "poll");
    } else {
      r.triggerPoll := Some(false);
    }
    var opts := CollectBowOpts(r.labels, r.annotations);
    r.bowOpts := Some(opts);
  }

  /** The store's state. */
  class Store {
    var resources: seq<Resource>
    var error: Option<string>

    constructor ()
      ensures resources == [] && error.None?
    {
      resources := [];
      error := None;
    }

    /** SET_RESOURCES: every given resource is annotated in place, and the
        given list becomes the store's list. */
    method SetResources(rs: seq<Resource>)
      modifies this, set r | r in rs
      ensures resources == rs && error == old(error)
      ensures forall r :: r in rs ==> r.Annotated(old(r.requiredApprovals)) && r.loading == old(r.loading)
    {
      resources := [];
      for i := 0 to |rs|
        invariant resources == [] && error == old(error)
        invariant forall r :: r in rs[..i] ==> r.Annotated(old(r.requiredApprovals)) && r.loading == old(r.loading)
        invariant forall r :: r in rs && r !in rs[..i] ==>
                    r.requiredApprovals == old(r.requiredApprovals) && r.loading == old(r.loading)
      {
        Annotate(rs[i]);
        assert forall r :: r in rs[..i + 1] <==> r in rs[..i] || r == rs[i];
      }
      assert rs[..|rs|] == rs;
      resources := rs;
    }

    /** SET_ERROR: only the error changes. */
    method SetError(e: Option<string>)
      modifies this
      ensures error == e && resources == old(resources)
    {
      error := e;
    }

    /** SET_RESOURCE_LOADING: every resource with the identifier is marked as
        loading; nothing else changes. */
    method SetResourceLoading(identifier: string)
      modifies set r | r in resources
      ensures forall r :: r in resources ==> r.loading == (old(r.loading) || r.identifier == identifier)
      ensures forall r :: r in resources ==>
                r.requiredApprovals == old(r.requiredApprovals) && r.triggerPoll == old(r.triggerPoll)
                && r.bowOpts == old(r.bowOpts)
    {
      for i := 0 to |resources|
        invariant forall r :: r in resources[..i] ==> r.loading == (old(r.loading) || r.identifier == identifier)
        invariant forall r :: r in resources && r !in resources[..i] ==> r.loading == old(r.loading)
        invariant forall r :: r in resources ==>
                    r.requiredApprovals == old(r.requiredApprovals) && r.triggerPoll == old(r.triggerPoll)
                    && r.bowOpts == old(r.bowOpts)
      {
        if resources[i].identifier == identifier {
          resources[i].loading := true;
        }
        assert forall r :: r in resources[..i + 1] <==> r in resources[..i] || r == resources[i];
      }
      assert resources[..|resources|] == resources;
    }
  }
}
