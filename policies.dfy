/** Resolution of a resource's trigger type from its annotations and labels. */
module Policies {

  import opened Types

  /** GetTriggerPolicy: the annotation decides when its key is present (whatever its
      value, even an empty one); otherwise the label decides when its key is
      present; otherwise the trigger is poll. `parseTrigger` is types.ParseTrigger,
      not part of this model. */
  function GetTriggerPolicy(
    labels: map<string, string>,
    annotations: map<string, string>,
    parseTrigger: string -> TriggerType): (t: TriggerType)
    ensures TriggerLabel in annotations ==> t == parseTrigger(annotations[TriggerLabel])
    ensures TriggerLabel !in annotations && TriggerLabel in labels ==> t == parseTrigger(labels[TriggerLabel])
    ensures TriggerLabel !in annotations && TriggerLabel !in labels ==> t == TriggerTypePoll
  {
    if TriggerLabel in annotations then parseTrigger(annotations[TriggerLabel])
    else if TriggerLabel in labels then parseTrigger(labels[TriggerLabel])
    else TriggerTypePoll
  }

  /** The label never matters once the annotation key is present: changing or
      removing the label leaves the result as it was. */
  lemma AnnotationShadowsLabel(
    labels: map<string, string>,
    labels': map<string, string>,
    annotations: map<string, string>,
    parseTrigger: string -> TriggerType)
    requires TriggerLabel in annotations
    ensures GetTriggerPolicy(labels, annotations, parseTrigger) == GetTriggerPolicy(labels', annotations, parseTrigger)
  {
  }

  /** Without an annotation, the labels alone decide. */
  lemma LabelDecidesWithoutAnnotation(
    labels: map<string, string>,
    annotations: map<string, string>,
    parseTrigger: string -> TriggerType)
    requires TriggerLabel !in annotations
    ensures GetTriggerPolicy(labels, annotations, parseTrigger) == GetTriggerPolicy(labels, map[], parseTrigger)
  {
  }
}
