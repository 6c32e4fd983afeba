/** Shared entities: image references, policies, repository events and tracked
    images. The image parser and the policy engine are not part of this model; they
    appear only as the values below, and nothing is assumed about them beyond what
    the modelled code uses. */
module Types {

  import opened Wrappers

  /** A parsed image reference, as the parser presents it through its accessors
      Registry(), Scheme(), ShortName(), Repository(), Tag() and Remote(). */
  datatype Reference = Reference(
    registry: string,
    scheme: string,
    shortName: string,
    repository: string,
    tag: string,
    remote: string)

  /** The image parser: None stands for a parse error. */
  type Parser = string -> Option<Reference>

  /** The registry host name of images that name no registry. */
  const DefaultRegistryHostname: string := "index.docker.io"

  datatype PolicyType = PolicyTypeNone | PolicyTypeSemver | PolicyTypeForce | PolicyTypeGlob

  /** A policy: its name, its type, and its ShouldUpdate(currentTag, newTag)
      decision, which may fail with an error. */
  datatype Policy = Policy(
    name: string,
    kind: PolicyType,
    shouldUpdate: (string, string) -> Result<bool, string>)

  datatype TriggerType = TriggerTypeDefault | TriggerTypePoll

  /** The repository named by an event: "this image:tag now exists". */
  datatype Repository = Repository(
    host: string,
    name: string,
    tag: string,
    digest: string,
    oldTag: string)

  datatype Event = Event(repository: Repository, triggerName: string)

  const TriggerNamePoll: string := "poll"

  datatype TrackedImage = TrackedImage(
    image: Reference,
    trigger: TriggerType,
    pollSchedule: string,
    provider: string,
    meta: map<string, string>,
    policy: Policy)

  /** Annotation and label keys. */
  const TriggerLabel: string := "bow.sh/trigger"
  const PollScheduleAnnotation: string := "bow.sh/pollSchedule"
  const ImagePullSecretAnnotation: string := "bow.sh/imagePullSecret"
  const UpdateTimeAnnotation: string := "bow.sh/update-time"
  const PollDefaultSchedule: string := "@every 1m"
}
