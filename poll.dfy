/** The poll trigger's single-tag watch job (trigger/poll/single_tag_watcher.go):
    each run asks the registry for the digest of the watched tag and, when it
    differs from the digest seen last, records it and submits a poll event to the
    providers. The registry client, the credentials helper and the providers
    are not part of this model: the digest lookup and the credentials are
    function arguments, and the providers are a log of the events submitted to
    them. */
module Poll {

  import opened Wrappers
  import opened Types

  /** The credentials helper: the user name and password to present to the
      registry for a tracked image (empty when it has none). */
  type CredentialsHelper = TrackedImage -> (string, string)

  /** The query for a tracked image: "scheme://registry", the short name, the
      tag, and the credentials the helper gives for it. */
  datatype DigestQuery = DigestQuery(registry: string, name: string, tag: string, username: string, password: string)

  /** The registry client's digest lookup: a query to the digest, or an error. */
  type DigestLookup = DigestQuery -> Result<string, string>

  function QueryOf(tracked: TrackedImage, credentialsOf: CredentialsHelper): (q: DigestQuery)
    ensures q.registry == tracked.image.scheme + "://" + tracked.image.registry
    ensures q.name == tracked.image.shortName && q.tag == tracked.image.tag
    ensures (q.username, q.password) == credentialsOf(tracked)
  {
    var creds := credentialsOf(tracked);
    var image := tracked.image;
    DigestQuery(image.scheme + "://" + image.registry, image.shortName, image.tag, creds.0, creds.1)
  }

  /** The event of a digest change: the image's repository at the unchanged tag,
      carrying the new digest. */
  function ChangeEvent(image: Reference, digest: string): (e: Event)
    ensures e.repository.name == image.repository
    ensures e.repository.tag == image.tag && e.repository.oldTag == image.tag
    ensures e.repository.digest == digest
    ensures e.triggerName == TriggerNamePoll
  {
    Event(Repository("", image.repository, image.tag, digest, image.tag), TriggerNamePoll)
  }

  /** What one run decides: the digest stored afterwards and the event
      submitted, if any. */
  datatype Outcome = Outcome(digest: string, event: Option<Event>)

  function RunOutcome(stored: string, image: Reference, lookup: Result<string, string>): (o: Outcome)
    ensures lookup.Failure? ==> o == Outcome(stored, None)
    ensures lookup.Success? && lookup.value == stored ==> o == Outcome(stored, None)
    ensures lookup.Success? && lookup.value != stored ==>
              o.digest == lookup.value && o.event == Some(ChangeEvent(image, lookup.value))
    ensures o.event.Some? <==> lookup.Success? && lookup.value != stored
  {
    match lookup
    case Failure(_) => Outcome(stored, None)
    case Success(current) =>
      if stored != current then Outcome(current, Some(ChangeEvent(image, current)))
      else Outcome(stored, None)
  }

  /** A second run against a registry that still reports the same digest
      submits nothing and keeps the digest. */
  lemma RunIdempotent(stored: string, image: Reference, lookup: Result<string, string>)
    ensures var o := RunOutcome(stored, image, lookup);
            RunOutcome(o.digest, image, lookup) == Outcome(o.digest, None)
  {
  }

  /** Whatever the lookup answers, after a run the stored digest is the last
      digest the registry reported, or the previous one if it reported none. */
  lemma RunStoresReportedDigest(stored: string, image: Reference, lookup: Result<string, string>)
    ensures RunOutcome(stored, image, lookup).digest == if lookup.Success? then lookup.value else stored
  {
  }

  /** The watch details shared with the watcher that scheduled the job. */
  class WatchDetails {
    const trackedImage: TrackedImage
    var digest: string

    constructor (trackedImage: TrackedImage, digest: string)
      ensures this.trackedImage == trackedImage && this.digest == digest
    {
      this.trackedImage := trackedImage;
      this.digest := digest;
    }
  }

  /** The providers, seen as the events submitted to them. */
  class Providers {
    var submitted: seq<Event>

    constructor ()
      ensures submitted == []
    {
      submitted := [];
    }

    /** Submit: the event is handed over; `err` is the providers' answer. */
    method Submit(event: Event, err: Option<string>) returns (r: Option<string>)
      modifies this
      ensures submitted == old(submitted) + [event]
      ensures r == err
    {
      submitted := submitted + [event];
      r := err;
    }
  }

  class WatchTagJob {
    const providers: Providers
    const details: WatchDetails

    /** NewWatchTagJob. */
    constructor (providers: Providers, details: WatchDetails)
      ensures this.providers == providers && this.details == details
    {
      this.providers := providers;
      this.details := details;
    }

    /** Run: look the digest up with the helper's credentials; on an error do nothing; when it differs from
        the stored one, store it and submit exactly one poll event. A submit
        error is only logged, so the stored digest stays updated. */
    method Run(credentialsOf: CredentialsHelper, digestOf: DigestLookup, submitErr: Option<string>)
      modifies details, providers
      ensures var o := RunOutcome(old(details.digest), details.trackedImage.image,
                                  digestOf(QueryOf(details.trackedImage, credentialsOf)));
              details.digest == o.digest
              && providers.submitted == old(providers.submitted) + (if o.event.Some? then [o.event.value] else [])
    {
      var image := details.trackedImage.image;
      var currentDigest := digestOf(QueryOf(details.trackedImage, credentialsOf));
      if currentDigest.Failure? {
        return;
      }
      if details.digest != currentDigest.value {
        details.digest := currentDigest.value;
        var event := Event(Repository("", image.repository, image.tag, currentDigest.value, image.tag), TriggerNamePoll);
        var err := providers.Submit(event, submitErr);
      }
    }
  }
}
