# bow: a verified model of the update core

bow (a fork of keel) watches container registries and keeps Kubernetes workloads
and Helm releases on the image versions their policies allow. This project
models the core of that decision and update path in Dafny and proves what the
code promises about it:

- **KubeUpdates**: the per-container check of a Kubernetes workload against a
  registry event, `checkForUpdate` and `setUpdateTime`. The workload is a class
  whose containers and annotations are updated in place.
- **Kubernetes**: the Kubernetes provider.
  - `getImagePullSecretFromMeta` and `TrackedImages`.
  - `createUpdatePlans`, which runs `checkForUpdate` over the cache and collects plans.
  - `processEvent`, which plans, filters by approval and updates.
  - `updateDeployments`, which annotates, notifies and rewrites Git manifests.
  - The provider is a class with its cache, the notifications it sent and the Git
    calls it made.
- **GitRepo**: the Git repository the Kubernetes provider writes manifests to.
  - The content rewrite of `GrepAndReplace` over a working tree.
  - `CommitAndPushAll`, which commits and pushes only when there are changes.
  - The clone-versus-pull decision of `init`.
- **HelmCommon / HelmUpdates**: the Helm provider's image tracking and the
  value map of `checkRelease`.
- **Policies**: `GetTriggerPolicy`, which picks the trigger type from labels and annotations.
- **Secrets / Base64**: registry credentials from the default docker configuration.
  - The getter, and the lookup over matching registries.
  - The base64 `user:pass` auth secret. It uses the padded standard encoding of
    section 4 of RFC 4648, as Go's `base64.StdEncoding` implements it.
  - `domainOnly` and `hostname`.
- **Poll**: the single-tag watch job, which detects digest changes and submits one
  poll event per change.
- **Bot**: the chat bot's flattening of deployments.
- **UiResources**: the web UI's resource store mutations `SET_RESOURCES`,
  `SET_RESOURCE_LOADING` and `SET_ERROR`.

Collaborators whose code is not part of this model are parameters. This covers:

- the image parser and the policy engine (a policy carries its type and its
  `ShouldUpdate` decision);
- `ParseTrigger`, cron validity, the Helm value accessors and `registryMatches`;
- the URL parser, the registry digest lookup and the approval filter;
- the notification channel and release-notes readers.

Nothing is assumed about them beyond what the modelled code uses. Clock readings are
opaque string parameters.

## Model

| member | source | states |
|---|---|---|
| KubeUpdates.GenericResource.UpdateContainer | provider/kubernetes/updates.go:78-82 | only the container at the given index changes, to the given image; labels, annotations and spec annotations are kept |
| KubeUpdates.GenericResource.SetAnnotations | provider/kubernetes/kubernetes.go:290-292 | the annotations become the given map and nothing else of the workload changes |
| KubeUpdates.ContainerUpdate | provider/kubernetes/updates.go:31-82 | a container is rewritten iff its image parses, names the event's repository and the policy answers true without error; it is rewritten to the image getUpdatedImage builds and reports its old tag |
| KubeUpdates.RewriteImagesSpec | provider/kubernetes/updates.go:30-82 | after the check, an unparseable image, another repository, or a rejected or failed policy check leaves the container's image as it was; an accepted container gets ShortName:tag or Repository:tag |
| KubeUpdates.LastUpdatedTag | provider/kubernetes/updates.go:84-88 | a current version exists iff some container is rewritten, and it is the old tag of a rewritten container |
| KubeUpdates.UpdatedStep | provider/kubernetes/updates.go:84-88 | the last rewritten container's old tag wins: each rewritten container overwrites CurrentVersion |
| KubeUpdates.SetUpdateTime | provider/kubernetes/updates.go:94-98 | the update-time spec annotation is set to the clock reading, every other spec annotation, the images and the metadata are kept |
| KubeUpdates.CheckContainer | provider/kubernetes/updates.go:30-88 | one loop iteration: only the container at the index may change; the update time is set exactly when it is rewritten |
| KubeUpdates.CheckForUpdate | provider/kubernetes/updates.go:15-92 | an unparseable event gives the empty plan, false and an error, and the workload is untouched; otherwise the error is nil, the images are rewritten container by container, the result is true iff some container was rewritten, and the plan names the workload, the last rewritten old tag and the event's tag |
| KubeUpdates.CheckContainers | provider/kubernetes/updates.go:29-89 | the container loop in order, with the same result as CheckForUpdate after the event parsed |
| KubeUpdates.CheckStep | provider/kubernetes/updates.go:30-89 | the loop's state after idx+1 containers follows from its state after idx |
| Kubernetes.GetImagePullSecretFromMeta | provider/kubernetes/kubernetes.go:128-145 | a label whose key equals the pull-secret key up to case wins, then such an annotation, otherwise "" |
| Kubernetes.Provider.constructor | provider/kubernetes/kubernetes.go:96-105 | a new provider holds the given cache and has sent no notification and made no Git call |
| Kubernetes.PollSchedule | provider/kubernetes/kubernetes.go:161-175 | the poll-schedule annotation is used only when present and a valid cron expression; otherwise the default schedule |
| Kubernetes.TrackedOfImages | provider/kubernetes/kubernetes.go:187-216 | at most one entry per image, each carrying the workload's schedule, trigger, policy, the provider name "kubernetes" and empty metadata |
| Kubernetes.TrackedOfImagesAllParse | provider/kubernetes/kubernetes.go:187-216 | when every image parses, one tracked image per image, in order, with that image's reference |
| Kubernetes.TrackedOfImagesSound | provider/kubernetes/kubernetes.go:188-198 | every tracked image is the parse of one of the workload's images (unparseable ones are skipped) |
| Kubernetes.Provider.TrackedOfImageList | provider/kubernetes/kubernetes.go:187-216 | the inner loop yields exactly TrackedOfImages of the image list |
| Kubernetes.Provider.TrackedImages | provider/kubernetes/kubernetes.go:148-219 | one entry per parseable image of each cached workload in cache order, workloads with a None policy included, and no error |
| Kubernetes.PlanOf | provider/kubernetes/kubernetes.go:362-386 | a workload contributes at most one plan, naming that workload with the event's tag as new version |
| Kubernetes.PlansOf | provider/kubernetes/kubernetes.go:359-389 | plans come from cached workloads only, at most one each, all with the event's tag as new version |
| Kubernetes.PlansOfDistinct | provider/kubernetes/kubernetes.go:359-389 | a cache that holds each workload once yields plans for distinct workloads |
| Kubernetes.ApprovedOf | provider/kubernetes/kubernetes.go:254 | the approval filter keeps only plans that were planned and that it approves |
| Kubernetes.ApprovedOfDistinct | provider/kubernetes/kubernetes.go:254 | filtering keeps the plans' workloads distinct |
| Kubernetes.PlannedAtIndex | provider/kubernetes/kubernetes.go:359-389 | each plan's workload is a cached workload, and its state after planning is that workload's planned state |
| Kubernetes.CheckResource | provider/kubernetes/kubernetes.go:364-385 | one cache entry: a None policy skips it; otherwise checkForUpdate runs on it and its plan is kept when an update was found |
| Kubernetes.Provider.CreateUpdatePlans | provider/kubernetes/kubernetes.go:359-389 | the plans are those of the cache in cache order, the error is nil, and every cached workload is left as checkForUpdate leaves it |
| Kubernetes.Provider.CheckAll | provider/kubernetes/kubernetes.go:362-386 | the loop over the cache gives the plans of the cache, and every workload is rewritten as planned |
| Kubernetes.Provider.CheckOne | provider/kubernetes/kubernetes.go:362-386 | one workload is checked and no other cached workload changes |
| Kubernetes.GitCallsForSound | provider/kubernetes/kubernetes.go:294-298 | every Git rewrite targets a workload image whose second ':'-part is the current version, and rewrites it to the new version |
| Kubernetes.GitCallsForComplete | provider/kubernetes/kubernetes.go:294-298 | every image whose second ':'-part is the current version gets a Git rewrite |
| Kubernetes.Provider.GitCallsLoop | provider/kubernetes/kubernetes.go:294-308 | the image loop issues GrepAndReplace then CommitAndPushAll for each matching image, in order |
| Kubernetes.Provider.RewriteInGit | provider/kubernetes/kubernetes.go:294-308 | the provider's Git log grows by exactly those calls and nothing else changes |
| Kubernetes.Provider.Execute | provider/kubernetes/kubernetes.go:265-352 | one executed plan: the change-cause annotation is set, the "preparing" and "update resource" notifications are sent and the Git calls are made |
| Kubernetes.ChangeCause | provider/kubernetes/kubernetes.go:289 | the change-cause text names both versions after "bow automated update, version " and ends with the bracketed timestamp |
| Kubernetes.NotificationsFor | provider/kubernetes/kubernetes.go:271-343 | two notifications for the workload on the channels its annotations name: a debug "preparing to update resource", then a success "update resource" whose message starts "Successfully updated " |
| Kubernetes.UpdatedOf | provider/kubernetes/kubernetes.go:352 | only plans whose versions differ report their workload, in plan order |
| Kubernetes.UpdateDeploymentsStep | provider/kubernetes/kubernetes.go:259-356 | one more plan adds its notifications, its Git calls and its workload only when its versions differ |
| Kubernetes.Provider.UpdateDeployments | provider/kubernetes/kubernetes.go:259-356 | plans with equal versions are skipped; every other plan, in order, is annotated, notified and rewritten in Git; the error is nil |
| Kubernetes.Provider.UpdateOne | provider/kubernetes/kubernetes.go:260-353 | one plan of the loop, changing no other plan's workload |
| Kubernetes.Provider.PlanAndApprove | provider/kubernetes/kubernetes.go:241-254 | the plans are those of the cache, the approved ones are the filter's choice among them, and they name distinct workloads as planning left them |
| Kubernetes.Provider.ProcessEvent | provider/kubernetes/kubernetes.go:240-257 | no plans means no notification, no Git call and nothing updated; otherwise the approved plans are carried out; every cached workload is left as checkForUpdate leaves it, and the workload of each executed approved plan also gets its change-cause annotation; the error is nil |
| Kubernetes.RewrittenContainerEscapesGit | provider/kubernetes/kubernetes.go:294-297 | as written, the image a rewritten container had before the event is never rewritten in Git |
| Kubernetes.UntouchedContainerOnOldTagRewritten | provider/kubernetes/kubernetes.go:294-297 | as written, a container left alone whose tag equals the current version is rewritten in Git |
| Kubernetes.GitCallsForRewrittenExact | provider/kubernetes/kubernetes.go:294-297 | corrected: Git rewrites exactly the old images of the rewritten containers, always to the event's tag |
| GitRepo.RewriteLeavesOthers | internal/gitrepo/repo.go:252-268 | a file without the old image keeps its content and is not written |
| GitRepo.RewriteFiles | internal/gitrepo/repo.go:240-272 | the walk keeps every path, and an image rewritten to one of its own length keeps every file's length |
| GitRepo.ChangedPathsHeldImage | internal/gitrepo/repo.go:252-268 | every written file held the old image |
| GitRepo.RewriteToSelfIsNoOp | internal/gitrepo/repo.go:252-268 | replacing an image by itself changes and writes nothing |
| GitRepo.Worktree.RewriteAll | internal/gitrepo/repo.go:240-272 | the walk rewrites every file and writes exactly the files whose content changes |
| GitRepo.Worktree.RewriteFile | internal/gitrepo/repo.go:245-268 | one file is rewritten and written only when its content changes |
| GitRepo.RewriteMatchesContainer | internal/gitrepo/repo.go:254-258 | in every manifest, the old image of an updated container is replaced by exactly the image checkForUpdate gave that container; a manifest entry holding the old image ends up holding the new one |
| GitRepo.Repo.Init | internal/gitrepo/repo.go:40-96 | clone when no repository is open and the local copy is missing, has no origin or has another origin; otherwise open and pull, cloning after a failed pull; an open repository is pulled, and a failed pull's clone keeps the old handle; after a successful pull or clone the working tree and the last commit are the remote branch's, and a failed clone leaves the working tree empty |
| GitRepo.Repo.PullBranch | internal/gitrepo/repo.go:126-151 | a successful forced pull and checkout leave the working tree and the last commit at the remote branch; a failed one changes neither |
| GitRepo.Repo.NewClone | internal/gitrepo/repo.go:207-232 | the local path is emptied; a clone that succeeds checks out the remote branch even when the fetch after it fails, and only a clone with a successful fetch gives a handle |
| GitRepo.Repo.GrepAndReplace | internal/gitrepo/repo.go:234-276 | every occurrence of the old image in every file becomes the image on the new tag, only changed files are written, and an unparseable old image fails at the first file |
| GitRepo.Repo.CommitAndPushAll | internal/gitrepo/repo.go:169-205 | without a repository handle (a failed clone) the call crashes and changes nothing; otherwise worktree and status errors are returned first; with no changes nothing is committed and there is no error; otherwise a commit, then a push whose error is returned |
| HelmCommon.GetUpdatedImage | provider/helm/common.go:76-82 | the default registry gives ShortName:version, any other registry Repository:version |
| HelmCommon.UpdatedImageSplits | provider/helm/common.go:76-82 | splitting the rewritten image at ':' gives back the name and the version when neither holds ':' |
| HelmCommon.GetUnversionedPlanValues | provider/helm/common.go:68-74 | no tag path: the whole image at the repository path; otherwise the tag at the tag path |
| HelmCommon.GetPlanValues | provider/helm/common.go:59-66 | the same rule with the version's string form |
| HelmCommon.PlanValuesAgree | provider/helm/common.go:59-74 | the two plan-value helpers agree on every input |
| HelmCommon.ParseImage | provider/helm/common.go:84-102 | an empty repository path or missing repository value is an error; a missing tag parses the name alone, otherwise name:tag |
| HelmCommon.TrackedOfSound | provider/helm/common.go:35-54 | every tracked image comes from an entry that parses and carries the configuration's schedule, trigger and policy |
| HelmCommon.TrackedOfAllParse | provider/helm/common.go:35-54 | when every entry parses, one tracked image per entry, in order |
| HelmCommon.TrackedOfNoneParse | provider/helm/common.go:35-54 | when no entry parses, nothing is tracked |
| HelmCommon.GetImages | provider/helm/common.go:19-57 | a missing policy gives no images and no error; another configuration error gives ErrbowConfigNotFound; otherwise the tracked entries |
| HelmUpdates.Accepted | provider/helm/updates.go:60-96 | an entry is accepted iff it parses, names the event's repository and the policy answers true without error |
| HelmUpdates.LastAccepted | provider/helm/updates.go:115-118 | the last accepted entry is an accepted entry of the list, and no entry after it is accepted |
| HelmUpdates.LastAcceptedExists | provider/helm/updates.go:117-120 | some entry is accepted iff there is a last accepted one |
| HelmUpdates.FoldWithoutAccepted | provider/helm/updates.go:60-124 | without an accepted entry the plan is unchanged |
| HelmUpdates.FoldVersions | provider/helm/updates.go:115-119 | after an accepted entry the plan has the event's tag, the last accepted image's tag, the release's configuration and that entry's value at its path |
| HelmUpdates.FoldNotes | provider/helm/updates.go:121-123 | release notes are the accepted entries' non-empty notes, in order |
| HelmUpdates.FoldValueKeys | provider/helm/updates.go:107-116 | the plan writes only value and digest paths of accepted entries, and the value path of each of them |
| HelmUpdates.FoldEntryValue | provider/helm/updates.go:107-116 | each key an accepted entry writes and no later accepted entry overwrites holds that entry's value: the new image or tag at its value path, the event's digest at a distinct digest path |
| HelmUpdates.FoldDigest | provider/helm/updates.go:107-108 | the last accepted entry's digest path, when distinct from its value path, holds the event's digest |
| HelmUpdates.CheckRelease | provider/helm/updates.go:13-127 | the plan names the release; an unparseable event or unreadable values is an error; a configuration error or None policy leaves the release alone without error; otherwise the plan is the fold of the accepted entries and an update is due iff one was accepted |
| Policies.GetTriggerPolicy | util/policies/policies.go:9-23 | the annotation decides when its key is present, even empty; else the label; else poll |
| Policies.AnnotationShadowsLabel | util/policies/policies.go:11-14 | once the annotation key is present the label never matters |
| Policies.LabelDecidesWithoutAnnotation | util/policies/policies.go:16-22 | without the annotation key the labels alone decide |
| Strings.SplitFirst | secrets/secrets.go:126 | SplitN(s, sep, 2): the text before the first separator and, iff there is one, the text after it; they rebuild the input |
| Strings.SplitFirstAt | secrets/secrets.go:126 | a separator-free head, the separator and any tail split back into head and tail |
| Strings.Split | secrets/secrets.go:152 | the first part of strings.Split is the text before the first separator |
| Strings.SplitJoin | provider/kubernetes/kubernetes.go:295 | joining the parts of a split with the separator gives the text back |
| Strings.SplitPartsLackSeparator | provider/kubernetes/kubernetes.go:295 | no part of a split holds the separator |
| Strings.ReplaceAllWithoutOccurrence | internal/gitrepo/repo.go:255-257 | text without the pattern is left as it is |
| Strings.ReplaceAllBySelf | internal/gitrepo/repo.go:255-257 | replacing a pattern by itself changes nothing |
| Strings.ReplaceAllChangesOnlyWithOccurrence | internal/gitrepo/repo.go:255-260 | content changes only when the pattern occurs |
| Strings.ReplaceAll | internal/gitrepo/repo.go:255-257 | replacing a non-empty pattern by text of its own length keeps the length; an empty pattern with an empty replacement leaves the text unchanged |
| Strings.ToLower | provider/kubernetes/kubernetes.go:130-139 | lower-casing keeps the length and maps each character |
| Base64.Encode | secrets/secrets.go:134-136 | the encoding of n bytes has 4 * ceil(n / 3) characters |
| Base64.StripNewlines | secrets/secrets.go:120 | the decoder ignores carriage returns and line feeds: none survives, and input without them is kept |
| Base64.DecodeQuantum | secrets/secrets.go:120-123 | a quantum decodes to one to three bytes, and to fewer than three only as the last, padded quantum |
| Base64.DecodeQuantaLength | secrets/secrets.go:120-123 | newline-free input decodes only when its length is a multiple of four, to three bytes per quantum, less at most two for padding in the last quantum |
| Base64.Decode | secrets/secrets.go:120-123 | carriage returns and line feeds aside, input that is not whole quanta is rejected; decoded text has three bytes per quantum less at most two |
| Base64.DecodeEncode | secrets/secrets.go:119-136 | decoding undoes encoding for every byte string |
| Secrets.DecodeBase64Secret | secrets/secrets.go:119-132 | undecodable input and decoded text without ':' are errors; decoded text with a ':' succeeds, split at its first ':' into a ':'-free user name and the rest |
| Secrets.EncodeBase64Secret | secrets/secrets.go:134-136 | the padded encoding of "user:pass", 4 * ceil(n / 3) characters long, which decodes back to "user:pass" |
| Secrets.SecretRoundTrip | secrets/secrets.go:119-136 | decoding an encoded secret gives back user name and password whenever the user name holds no ':' |
| Secrets.EmptySecretFails | secrets/secrets.go:126-130 | an empty auth secret decodes to no ':' and is rejected as malformed |
| Secrets.CredentialsOf | secrets/secrets.go:79-97 | a non-empty user name and password win over the auth secret; otherwise the decoded secret, and nothing when it does not decode or is missing |
| Secrets.CredentialsFromConfig | secrets/secrets.go:71-117 | found iff some matching entry yields credentials, and then the credentials are those of such an entry; otherwise empty credentials and false |
| Secrets.DefaultGetter.constructor | secrets/secrets.go:38-48 | a missing configuration is stored as an empty one |
| Secrets.DefaultGetter.Get | secrets/secrets.go:51-65 | the credentials of a matching usable entry, or ErrSecretsNotSpecified exactly when there is none |
| Secrets.Hostname | secrets/secrets.go:138-148 | a registry without an http:// or https:// prefix is returned unchanged; a URL is reduced by the URL parser |
| Secrets.DomainOnly | secrets/secrets.go:150-156 | the text before the first ':', which holds no ':', and the whole registry when there is none |
| Secrets.DomainOnlyIdempotent | secrets/secrets.go:150-156 | reducing a registry to its domain twice is the same as once |
| Poll.QueryOf | trigger/poll/single_tag_watcher.go:31-39 | the digest is asked for at scheme://registry with the short name and the tag, presenting the user name and password the credentials helper gives for the tracked image |
| Poll.WatchTagJob.constructor | trigger/poll/single_tag_watcher.go:21-27 | the job holds the given providers and watch details |
| Poll.ChangeEvent | trigger/poll/single_tag_watcher.go:63-71 | the event names the repository, keeps the tag as both tag and old tag, carries the new digest and the poll trigger |
| Poll.RunOutcome | trigger/poll/single_tag_watcher.go:43-87 | a lookup error or an unchanged digest submits nothing and keeps the digest; a changed digest is stored and exactly one change event is submitted |
| Poll.RunIdempotent | trigger/poll/single_tag_watcher.go:59-61 | a second run against the same digest submits nothing |
| Poll.RunStoresReportedDigest | trigger/poll/single_tag_watcher.go:43-61 | afterwards the stored digest is the last one the registry reported |
| Poll.Providers.Submit | trigger/poll/single_tag_watcher.go:78 | the event is handed to the providers and their answer returned |
| Poll.WatchTagJob.Run | trigger/poll/single_tag_watcher.go:30-88 | the stored digest and the submitted events are as RunOutcome says for the registry's answer to QueryOf; a submit error changes neither |
| Bot.ImagesOf | bot/deployments.go:29-36 | one image per container, in container order |
| Bot.FormattedOf | bot/deployments.go:18-24 | namespace, name and both replica counts are copied unchanged, with the container images |
| Bot.InternalOf | bot/deployments.go:14-27 | one record per deployment, in input order |
| Bot.GetImages | bot/deployments.go:29-36 | the loop collects exactly ImagesOf of the containers |
| Bot.ConvertToInternal | bot/deployments.go:14-27 | the loop builds exactly InternalOf of the deployments |
| Bot.InternalOfConcat | bot/deployments.go:16-25 | each record depends on its deployment alone: converting a concatenation concatenates the conversions |
| UiResources.TriggerPollOf | ui/src/store/modules/resources.js:20-31 | a truthy trigger annotation decides, else a truthy trigger label, else false |
| UiResources.BowOpts | ui/src/store/modules/resources.js:33-51 | exactly the labels and annotations whose key starts with "bow.sh/", an annotation winning over a label |
| UiResources.EmptyAnnotationFallsThrough | ui/src/store/modules/resources.js:20-31 | an empty trigger annotation is ignored, unlike the server's rule |
| UiResources.UiAgreesWithServer | ui/src/store/modules/resources.js:20-31 | with non-empty trigger values, the UI shows poll exactly when the server's GetTriggerPolicy resolves to poll |
| UiResources.NoTriggerKeyDisagrees | ui/src/store/modules/resources.js:29 | with no trigger key the UI shows no poll while the server polls |
| UiResources.CollectBowLabels | ui/src/store/modules/resources.js:33-40 | the label loop collects exactly the "bow.sh/" labels |
| UiResources.AddBowAnnotations | ui/src/store/modules/resources.js:42-49 | the annotation loop writes the "bow.sh/" annotations over the collected labels |
| UiResources.CollectBowOpts | ui/src/store/modules/resources.js:33-51 | both loops together give BowOpts |
| UiResources.Annotate | ui/src/store/modules/resources.js:13-51 | approvals are set only when truthy, the poll flag and the options always |
| UiResources.Store.SetResources | ui/src/store/modules/resources.js:10-54 | every given resource is annotated in place and the given list becomes the store's list |
| UiResources.Store.constructor | ui/src/store/modules/resources.js:4-7 | the store starts with no resources and no error |
| UiResources.Store.SetError | ui/src/store/modules/resources.js:55-57 | only the error changes |
| UiResources.Store.SetResourceLoading | ui/src/store/modules/resources.js:58-65 | every resource with the identifier is marked loading and nothing else changes |

## Left out

- Concurrency and I/O are not modelled:
  - the event channels, `Start`, `Stop` and `Submit` of the provider;
  - the Git watcher goroutine;
  - the repository's file lock;
  - logging and Prometheus counters.
- The image parser, the policy engine, `ParseTrigger`, cron parsing and the Helm value accessors are parameters. `registryMatches`, the URL parser, the registry client, the credentials helper and the approval manager are parameters too. The `internal/k8s` package is not part of this model: its `GenericResource` accessors are class fields.
- Kubernetes.Provider.CreateUpdatePlans: requires the cache to hold each workload once. The cache is keyed by identifier, and the in-place rewrites of a workload listed twice are not modelled.
- Kubernetes.Provider.UpdateDeployments: requires that the executed plans name distinct, non-null workloads. createUpdatePlans guarantees this (PlanAndApprove proves it); plans from elsewhere are not modelled.
- Kubernetes.Provider.ProcessEvent: `checkForApprovals` is an abstract filter on the plans, and `updateComplete` (resetting the approval counters) is not modelled.
- Kubernetes.Provider.UpdateDeployments: Git calls are logged by the provider rather than executed on a GitRepo.Repo. GitRepo models what each call does on its own.
- GitRepo.Repo.Init: after a failed clone the working tree is taken to be empty and the last-commit tree is left as it was; what go-git does with a handle whose directory was removed is not modelled. `commits` is the log of commits made, which a clone does not undo; the discarded unpushed work shows as `head` becoming the remote's tree.
- GitRepo.Repo.GrepAndReplace: the `init` it performs first is modelled separately as GitRepo.Repo.Init and not composed with the rewrite.
- Clock readings, RFC 3339 formatting and semantic-version printing (`newVersion.String()`) are opaque strings. One reading stands for all of one call's `time.Now()` calls: the change-cause time of every plan executed for one event, and the update time of every container rewritten for it, are the same reading in the model, while the program reads the clock each time.
- Kubernetes.Provider.TrackedImages: the pull secrets and prerelease maps it computes but never stores are not modelled, and neither is the tracked image's secrets field.
- Strings.ToLower: only ASCII letters are lowered. Unicode case mapping is not modelled.
- Secrets.DecodeBase64Secret: the decoder's error text is a fixed string, without the offending byte position Go reports.
- Secrets: user names, passwords and secrets are byte strings. JSON decoding of docker configurations and `nil` entries in a configuration are not modelled.
- Go `nil` slices and maps are not told apart from empty ones. This covers `getImages` returning `nil` for a deployment without containers, and the empty result of `convertToInternal`.
- UiResources: resources without `labels` or `annotations` objects, which make the JavaScript throw, are not modelled. Label, annotation and identifier values are strings.
- The notification sender, the Slack bot and the web UI's HTTP actions (`GetResources`, `SetResourcePolicy`) are outside the modelled core.

## Findings

| source | as written | input that shows it | evidently intended | confidence | as-written member | corrected member |
|---|---|---|---|---|---|---|
| provider/kubernetes/kubernetes.go:294-297 | updateDeployments picks the images to rewrite in Git by reading the workload's images after checkForUpdate has already moved them to the new tag, and matching their tag against the plan's current version | a workload whose one container is `nginx:1.0` and an event for `nginx:1.1`: no Git rewrite happens. With containers `nginx:1.0` and `redis:1.0`, `redis:1.0` is rewritten to `redis:1.1` in Git | the manifests should replace exactly the old images of the containers checkForUpdate rewrote, with the event's tag | not executed | Kubernetes.RewrittenContainerEscapesGit, Kubernetes.UntouchedContainerOnOldTagRewritten | Kubernetes.GitCallsForRewrittenExact |
