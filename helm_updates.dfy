/** checkRelease: the update plan of one Helm release for a repository event. */
module HelmUpdates {

  import opened Wrappers
  import opened Types
  import opened HelmCommon

  /** A release chart and its stored configuration; their content is only read
      through `ReleaseAccess.values`. */
  datatype Chart = Chart(name: string)
  datatype ChartConfig = ChartConfig(raw: string)

  /** The Helm update plan: the release, the value path -> value map to apply, and
      the versions involved. */
  datatype UpdatePlan = UpdatePlan(
    chart: Chart,
    namespace: string,
    name: string,
    values: map<string, string>,
    currentVersion: string,
    newVersion: string,
    config: Option<BowConfig>,
    releaseNotes: seq<string>)

  /** Collaborators of checkRelease that are not part of this model: the chart's
      merged values, the chart reader, and the Repository.String() form parsed as
      the event's image. */
  datatype ReleaseAccess = ReleaseAccess(
    values: (Chart, ChartConfig) -> Result<Values, string>,
    chart: ChartAccess,
    repoString: Repository -> string)

  function EmptyPlan(chart: Chart, namespace: string, name: string): UpdatePlan
  {
    UpdatePlan(chart, namespace, name, map[], "", "", None, [])
  }

  /** The image an entry points at, when the entry is accepted for the event: it
      parses, names the event's repository, and the policy agrees without error. */
  function Accepted(vals: Values, details: ImageDetails, eventRef: Reference, plc: Policy, access: ChartAccess): (r: Option<Reference>)
    ensures r.Some? <==>
      && ParseImage(vals, details, access).Some?
      && ParseImage(vals, details, access).value.repository == eventRef.repository
      && plc.shouldUpdate(ParseImage(vals, details, access).value.tag, eventRef.tag) == Success(true)
    ensures r.Some? ==> r == ParseImage(vals, details, access)
  {
    match ParseImage(vals, details, access)
    case None => None
    case Some(ref) =>
      if ref.repository != eventRef.repository then None
      else match plc.shouldUpdate(ref.tag, eventRef.tag)
        case Success(true) => Some(ref)
        case _ => None
  }

  /** The effect of one accepted entry on the plan: its digest path (if any) gets
      the event's digest, its value path gets its value, and the versions, the
      configuration and the release notes are overwritten or appended. */
  function Apply(plan: UpdatePlan, ref: Reference, details: ImageDetails, repo: Repository, cfg: BowConfig): UpdatePlan
  {
    var withDigest := if details.digestPath != "" then plan.values[details.digestPath := repo.digest] else plan.values;
    var (path, value) := GetUnversionedPlanValues(repo.tag, ref, details);
    plan.(
      values := withDigest[path := value],
      newVersion := repo.tag,
      currentVersion := ref.tag,
      config := Some(cfg),
      releaseNotes := if details.releaseNotes != "" then plan.releaseNotes + [details.releaseNotes] else plan.releaseNotes)
  }

  /** The plan after the entries `ds`, starting from `start`. */
  function Fold(start: UpdatePlan, vals: Values, ds: seq<ImageDetails>, eventRef: Reference, repo: Repository, cfg: BowConfig, access: ChartAccess): (r: UpdatePlan)
    ensures r.chart == start.chart && r.namespace == start.namespace && r.name == start.name
    decreases |ds|
  {
    if ds == [] then start
    else
      var plan := Fold(start, vals, ds[..|ds| - 1], eventRef, repo, cfg, access);
      match Accepted(vals, ds[|ds| - 1], eventRef, cfg.plc, access)
      case None => plan
      case Some(ref) => Apply(plan, ref, ds[|ds| - 1], repo, cfg)
  }

  /** Some entry of `ds` is accepted. */
  predicate AnyAccepted(vals: Values, ds: seq<ImageDetails>, eventRef: Reference, plc: Policy, access: ChartAccess)
  {
    exists j :: 0 <= j < |ds| && Accepted(vals, ds[j], eventRef, plc, access).Some?
  }

  /** The release notes of the accepted entries, in order. */
  function NotesOf(vals: Values, ds: seq<ImageDetails>, eventRef: Reference, plc: Policy, access: ChartAccess): seq<string>
    decreases |ds|
  {
    if ds == [] then []
    else
      var last := ds[|ds| - 1];
      NotesOf(vals, ds[..|ds| - 1], eventRef, plc, access)
        + (if Accepted(vals, last, eventRef, plc, access).Some? && last.releaseNotes != "" then [last.releaseNotes] else [])
  }

  /** The entry an accepted image's value is written at. */
  function PathOf(details: ImageDetails): string
  {
    if details.tagPath == "" then details.repositoryPath else details.tagPath
  }

  /** The image of the last accepted entry of `ds`, if any. */
  function LastAccepted(vals: Values, ds: seq<ImageDetails>, eventRef: Reference, plc: Policy, access: ChartAccess): (r: Option<(ImageDetails, Reference)>)
    ensures r.Some? ==> Accepted(vals, r.value.0, eventRef, plc, access) == Some(r.value.1)
    ensures r.Some? ==> exists j :: 0 <= j < |ds| && ds[j] == r.value.0 && NoneAcceptedAfter(vals, ds, j, eventRef, plc, access)
    decreases |ds|
  {
    if ds == [] then None
    else match Accepted(vals, ds[|ds| - 1], eventRef, plc, access)
      case Some(ref) =>
        assert NoneAcceptedAfter(vals, ds, |ds| - 1, eventRef, plc, access);
        Some((ds[|ds| - 1], ref))
      case None =>
        var r := LastAccepted(vals, ds[..|ds| - 1], eventRef, plc, access);
        LastAcceptedInPrefix(vals, ds, ds[..|ds| - 1], eventRef, plc, access, r);
        r
  }

  /** No entry after the `j`-th is accepted. */
  predicate NoneAcceptedAfter(vals: Values, ds: seq<ImageDetails>, j: nat, eventRef: Reference, plc: Policy, access: ChartAccess)
  {
    forall m :: j < m < |ds| ==> Accepted(vals, ds[m], eventRef, plc, access).None?
  }

  /** A last accepted entry of all but the final entry stays the last accepted
      one when the final entry is not accepted. */
  lemma LastAcceptedInPrefix(vals: Values, ds: seq<ImageDetails>, init: seq<ImageDetails>, eventRef: Reference, plc: Policy, access: ChartAccess, r: Option<(ImageDetails, Reference)>)
    requires ds != [] && init == ds[..|ds| - 1] && Accepted(vals, ds[|ds| - 1], eventRef, plc, access).None?
    requires r.Some? ==> exists j :: 0 <= j < |init| && init[j] == r.value.0 && NoneAcceptedAfter(vals, init, j, eventRef, plc, access)
    ensures r.Some? ==> exists j :: 0 <= j < |ds| && ds[j] == r.value.0 && NoneAcceptedAfter(vals, ds, j, eventRef, plc, access)
  {
    if r.Some? {
      var j :| 0 <= j < |init| && init[j] == r.value.0 && NoneAcceptedAfter(vals, init, j, eventRef, plc, access);
      forall m | j < m < |ds| ensures Accepted(vals, ds[m], eventRef, plc, access).None? {
        if m < |init| {
          assert init[m] == ds[m];
        }
      }
    }
  }

  /** The keys one accepted entry writes: its value path, and its digest path
      when it has one. */
  predicate WritesKey(details: ImageDetails, k: string)
  {
    k == PathOf(details) || (details.digestPath != "" && k == details.digestPath)
  }

  /** Some accepted entry after the `j`-th writes key `k`. */
  predicate WrittenAfter(vals: Values, ds: seq<ImageDetails>, j: nat, k: string, eventRef: Reference, plc: Policy, access: ChartAccess)
  {
    exists m :: j < m < |ds| && Accepted(vals, ds[m], eventRef, plc, access).Some? && WritesKey(ds[m], k)
  }

  /** Without an accepted entry the plan is left as it started. */
  lemma {:induction false} FoldWithoutAccepted(start: UpdatePlan, vals: Values, ds: seq<ImageDetails>, eventRef: Reference, repo: Repository, cfg: BowConfig, access: ChartAccess)
    requires !AnyAccepted(vals, ds, eventRef, cfg.plc, access)
    ensures Fold(start, vals, ds, eventRef, repo, cfg, access) == start
    decreases |ds|
  {
    if ds != [] {
      var init := ds[..|ds| - 1];
      assert !AnyAccepted(vals, init, eventRef, cfg.plc, access) by {
        forall j | 0 <= j < |init| ensures Accepted(vals, init[j], eventRef, cfg.plc, access).None? {
          assert init[j] == ds[j];
        }
      }
      FoldWithoutAccepted(start, vals, init, eventRef, repo, cfg, access);
      assert Accepted(vals, ds[|ds| - 1], eventRef, cfg.plc, access).None?;
    }
  }

  /** Some entry is accepted exactly when there is a last accepted one. */
  lemma {:induction false} LastAcceptedExists(vals: Values, ds: seq<ImageDetails>, eventRef: Reference, plc: Policy, access: ChartAccess)
    ensures AnyAccepted(vals, ds, eventRef, plc, access) <==> LastAccepted(vals, ds, eventRef, plc, access).Some?
    decreases |ds|
  {
    if ds != [] {
      var init := ds[..|ds| - 1];
      LastAcceptedExists(vals, init, eventRef, plc, access);
      if AnyAccepted(vals, init, eventRef, plc, access) {
        var j :| 0 <= j < |init| && Accepted(vals, init[j], eventRef, plc, access).Some?;
        assert ds[j] == init[j];
      }
      if AnyAccepted(vals, ds, eventRef, plc, access) && Accepted(vals, ds[|ds| - 1], eventRef, plc, access).None? {
        var j :| 0 <= j < |ds| && Accepted(vals, ds[j], eventRef, plc, access).Some?;
        assert j < |init| && init[j] == ds[j];
      }
    }
  }

  /** After at least one accepted entry, the plan's versions are the event's tag
      and the last accepted image's tag, its configuration is the release's, and
      the last accepted entry's value sits at that entry's path. */
  lemma {:induction false} FoldVersions(start: UpdatePlan, vals: Values, ds: seq<ImageDetails>, eventRef: Reference, repo: Repository, cfg: BowConfig, access: ChartAccess)
    requires LastAccepted(vals, ds, eventRef, cfg.plc, access).Some?
    ensures var r := Fold(start, vals, ds, eventRef, repo, cfg, access);
      var (details, ref) := LastAccepted(vals, ds, eventRef, cfg.plc, access).value;
      && r.newVersion == repo.tag
      && r.currentVersion == ref.tag
      && r.config == Some(cfg)
      && PathOf(details) in r.values
      && r.values[PathOf(details)] == GetUnversionedPlanValues(repo.tag, ref, details).1
    decreases |ds|
  {
    var init := ds[..|ds| - 1];
    if Accepted(vals, ds[|ds| - 1], eventRef, cfg.plc, access).None? {
      FoldVersions(start, vals, init, eventRef, repo, cfg, access);
    }
  }

  /** Every key an accepted entry writes, and no later accepted entry
      overwrites, holds what that entry put there: the new value at its value
      path, and the event's digest at a digest path distinct from it. */
  lemma {:induction false} FoldEntryValue(start: UpdatePlan, vals: Values, ds: seq<ImageDetails>, eventRef: Reference, repo: Repository, cfg: BowConfig, access: ChartAccess, j: nat, k: string)
    requires 0 <= j < |ds| && Accepted(vals, ds[j], eventRef, cfg.plc, access).Some?
    requires WritesKey(ds[j], k) && !WrittenAfter(vals, ds, j, k, eventRef, cfg.plc, access)
    ensures var r := Fold(start, vals, ds, eventRef, repo, cfg, access);
      && k in r.values
      && r.values[k] == if k == PathOf(ds[j])
                        then GetUnversionedPlanValues(repo.tag, Accepted(vals, ds[j], eventRef, cfg.plc, access).value, ds[j]).1
                        else repo.digest
    decreases |ds|
  {
    var init := ds[..|ds| - 1];
    var last := ds[|ds| - 1];
    if j < |ds| - 1 {
      assert init[j] == ds[j];
      assert !WrittenAfter(vals, init, j, k, eventRef, cfg.plc, access) by {
        forall m | j < m < |init| && Accepted(vals, init[m], eventRef, cfg.plc, access).Some?
          ensures !WritesKey(init[m], k)
        {
          assert init[m] == ds[m];
        }
      }
      FoldEntryValue(start, vals, init, eventRef, repo, cfg, access, j, k);
      if Accepted(vals, last, eventRef, cfg.plc, access).Some? {
        assert !WritesKey(last, k);
      }
    }
  }

  /** The digest path of the last accepted entry, when it is not also its value
      path, holds the event's digest. */
  lemma FoldDigest(start: UpdatePlan, vals: Values, ds: seq<ImageDetails>, eventRef: Reference, repo: Repository, cfg: BowConfig, access: ChartAccess)
    requires LastAccepted(vals, ds, eventRef, cfg.plc, access).Some?
    ensures var r := Fold(start, vals, ds, eventRef, repo, cfg, access);
      var details := LastAccepted(vals, ds, eventRef, cfg.plc, access).value.0;
      details.digestPath != "" && details.digestPath != PathOf(details) ==>
        details.digestPath in r.values && r.values[details.digestPath] == repo.digest
  {
    var details := LastAccepted(vals, ds, eventRef, cfg.plc, access).value.0;
    var j :| 0 <= j < |ds| && ds[j] == details && NoneAcceptedAfter(vals, ds, j, eventRef, cfg.plc, access);
    if details.digestPath != "" && details.digestPath != PathOf(details) {
      FoldEntryValue(start, vals, ds, eventRef, repo, cfg, access, j, details.digestPath);
    }
  }

  /** The plan's release notes are the starting notes followed by the non-empty
      notes of the accepted entries, in order. */
  lemma {:induction false} FoldNotes(start: UpdatePlan, vals: Values, ds: seq<ImageDetails>, eventRef: Reference, repo: Repository, cfg: BowConfig, access: ChartAccess)
    ensures Fold(start, vals, ds, eventRef, repo, cfg, access).releaseNotes == start.releaseNotes + NotesOf(vals, ds, eventRef, cfg.plc, access)
    decreases |ds|
  {
    if ds != [] {
      FoldNotes(start, vals, ds[..|ds| - 1], eventRef, repo, cfg, access);
    }
  }

  /** The plan writes only value paths and digest paths of accepted entries, and
      writes the value path of every accepted entry. */
  lemma {:induction false} FoldValueKeys(start: UpdatePlan, vals: Values, ds: seq<ImageDetails>, eventRef: Reference, repo: Repository, cfg: BowConfig, access: ChartAccess)
    ensures var r := Fold(start, vals, ds, eventRef, repo, cfg, access);
      forall k :: k in r.values ==>
        k in start.values ||
        exists j :: 0 <= j < |ds| && Accepted(vals, ds[j], eventRef, cfg.plc, access).Some? &&
          (k == PathOf(ds[j]) || (ds[j].digestPath != "" && k == ds[j].digestPath))
    ensures var r := Fold(start, vals, ds, eventRef, repo, cfg, access);
      forall j :: 0 <= j < |ds| && Accepted(vals, ds[j], eventRef, cfg.plc, access).Some? ==> PathOf(ds[j]) in r.values
    decreases |ds|
  {
    if ds != [] {
      var init := ds[..|ds| - 1];
      var last := ds[|ds| - 1];
      FoldValueKeys(start, vals, init, eventRef, repo, cfg, access);
      var prev := Fold(start, vals, init, eventRef, repo, cfg, access);
      var r := Fold(start, vals, ds, eventRef, repo, cfg, access);
      assert forall j :: 0 <= j < |init| ==> init[j] == ds[j];
      assert prev.values.Keys <= r.values.Keys;
      forall k | k in r.values
        ensures k in start.values ||
          exists j :: 0 <= j < |ds| && Accepted(vals, ds[j], eventRef, cfg.plc, access).Some? &&
            (k == PathOf(ds[j]) || (ds[j].digestPath != "" && k == ds[j].digestPath))
      {
        if k !in prev.values {
          assert Accepted(vals, last, eventRef, cfg.plc, access).Some?;
          assert k == PathOf(last) || (last.digestPath != "" && k == last.digestPath);
        }
      }
    }
  }

  /** One more entry of the loop of checkRelease: the plan changes only when
      that entry is accepted, and then as `Apply` says. */
  lemma FoldStep(start: UpdatePlan, vals: Values, ds: seq<ImageDetails>, i: nat, eventRef: Reference, repo: Repository, cfg: BowConfig, access: ChartAccess)
    requires i < |ds|
    ensures Fold(start, vals, ds[..i + 1], eventRef, repo, cfg, access) ==
      match Accepted(vals, ds[i], eventRef, cfg.plc, access)
      case None => Fold(start, vals, ds[..i], eventRef, repo, cfg, access)
      case Some(ref) => Apply(Fold(start, vals, ds[..i], eventRef, repo, cfg, access), ref, ds[i], repo, cfg)
    ensures AnyAccepted(vals, ds[..i + 1], eventRef, cfg.plc, access) <==>
      AnyAccepted(vals, ds[..i], eventRef, cfg.plc, access) || Accepted(vals, ds[i], eventRef, cfg.plc, access).Some?
  {
    assert ds[..i + 1][..i] == ds[..i];
    assert ds[..i + 1][i] == ds[i];
  }

  /** checkRelease. The plan always names the given chart, namespace and release.
      An event repository that does not parse, or chart values that cannot be read,
      fail with an error; any keel configuration error, and a None policy, leave the
      release alone without error. Otherwise the plan is the fold of the accepted
      entries and the release is to be updated iff some entry was accepted. */
  method CheckRelease(repo: Repository, namespace: string, name: string, chart: Chart, config: ChartConfig, access: ReleaseAccess)
    returns (plan: UpdatePlan, shouldUpdateRelease: bool, err: Option<string>)
    ensures plan.chart == chart && plan.namespace == namespace && plan.name == name
    ensures access.chart.parse(access.repoString(repo)).None? ==>
      plan == EmptyPlan(chart, namespace, name) && !shouldUpdateRelease && err.Some?
    ensures access.chart.parse(access.repoString(repo)).Some? && access.values(chart, config).Failure? ==>
      plan == EmptyPlan(chart, namespace, name) && !shouldUpdateRelease && err == Some(access.values(chart, config).error)
    ensures access.chart.parse(access.repoString(repo)).Some? && access.values(chart, config).Success? ==>
      var vals := access.values(chart, config).value;
      var cfgResult := access.chart.getBowConfig(vals);
      && err.None?
      && (cfgResult.Failure? || cfgResult.value.plc.kind == PolicyTypeNone ==>
            plan == EmptyPlan(chart, namespace, name) && !shouldUpdateRelease)
      && (cfgResult.Success? && cfgResult.value.plc.kind != PolicyTypeNone ==>
            var eventRef := access.chart.parse(access.repoString(repo)).value;
            var cfg := cfgResult.value;
            && plan == Fold(EmptyPlan(chart, namespace, name), vals, cfg.images, eventRef, repo, cfg, access.chart)
            && shouldUpdateRelease == AnyAccepted(vals, cfg.images, eventRef, cfg.plc, access.chart))
  {
    plan := EmptyPlan(chart, namespace, name);
    shouldUpdateRelease := false;
    var eventRepoRef := access.chart.parse(access.repoString(repo));
    if eventRepoRef.None? {
      return plan, false, Some("failed to parse event repository name");
    }
    var valsResult := access.values(chart, config);
    if valsResult.Failure? {
      return plan, false, Some(valsResult.error);
    }
    var vals := valsResult.value;
    var cfgResult := access.chart.getBowConfig(vals);
    if cfgResult.Failure? {
      // ErrPolicyNotSpecified and every other configuration error: the release is ignored
      return plan, false, None;
    }
    var cfg := cfgResult.value;
    if cfg.plc.kind == PolicyTypeNone {
      return plan, false, None;
    }
    var eventRef := eventRepoRef.value;
    var start := plan;
    var i := 0;
    while i < |cfg.images|
      invariant 0 <= i <= |cfg.images|
      invariant plan == Fold(start, vals, cfg.images[..i], eventRef, repo, cfg, access.chart)
      invariant shouldUpdateRelease == AnyAccepted(vals, cfg.images[..i], eventRef, cfg.plc, access.chart)
    {
      var details := cfg.images[i];
      FoldStep(start, vals, cfg.images, i, eventRef, repo, cfg, access.chart);
      var imageRef := ParseImage(vals, details, access.chart);
      if imageRef.None? || imageRef.value.repository != eventRef.repository {
        i := i + 1;
        continue;
      }
      var shouldUpdate := cfg.plc.shouldUpdate(imageRef.value.tag, eventRef.tag);
      if shouldUpdate.Failure? || !shouldUpdate.value {
        i := i + 1;
        continue;
      }
      if details.digestPath != "" {
        plan := plan.(values := plan.values[details.digestPath := repo.digest]);
      }
      var (path, value) := GetUnversionedPlanValues(repo.tag, imageRef.value, details);
      plan := plan.(values := plan.values[path := value]);
      plan := plan.(newVersion := repo.tag, currentVersion := imageRef.value.tag, config := Some(cfg));
      shouldUpdateRelease := true;
      if details.releaseNotes != "" {
        plan := plan.(releaseNotes := plan.releaseNotes + [details.releaseNotes]);
      }
      i := i + 1;
    }
    assert cfg.images[..i] == cfg.images;
    return plan, shouldUpdateRelease, None;
  }
}
