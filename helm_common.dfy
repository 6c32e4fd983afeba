/** Helpers shared by the Helm provider: reading the images a chart's keel
    configuration block declares, and computing the value a release update writes. */
module HelmCommon {

  import opened Wrappers
  import opened Strings
  import opened Types

  /** Chart values. Their nested structure is not modelled: they are only read
      through `ChartAccess.getValueAsString` with a dotted path. */
  type Values = map<string, string>

  /** One image entry of the keel configuration block: where the chart values hold
      the image's repository, tag and digest. */
  datatype ImageDetails = ImageDetails(
    repositoryPath: string,
    tagPath: string,
    digestPath: string,
    releaseNotes: string,
    imagePullSecret: string)

  /** The keel configuration block of a chart's values. */
  datatype BowConfig = BowConfig(
    plc: Policy,
    trigger: TriggerType,
    pollSchedule: string,
    images: seq<ImageDetails>)

  datatype ConfigError = ErrPolicyNotSpecified | ConfigLookupError(message: string)

  datatype HelmError = ErrBowConfigNotFound

  /** The collaborators a chart is read through, none of them part of this model:
      getbowConfig, getValueAsString and image.Parse. */
  datatype ChartAccess = ChartAccess(
    getBowConfig: Values -> Result<BowConfig, ConfigError>,
    getValueAsString: (Values, string) -> Result<string, string>,
    parse: Parser)

  /** getUpdatedImage: the image string an update writes, without the registry for
      the default registry and with it otherwise. */
  function GetUpdatedImage(ref: Reference, version: string): (r: string)
    ensures ref.registry == DefaultRegistryHostname ==> r == ref.shortName + ":" + version
    ensures ref.registry != DefaultRegistryHostname ==> r == ref.repository + ":" + version
  {
    if ref.registry == DefaultRegistryHostname then ref.shortName + ":" + version
    else ref.repository + ":" + version
  }

  /** The name part of the rewritten image, before the tag. */
  function UpdatedImageName(ref: Reference): string
  {
    if ref.registry == DefaultRegistryHostname then ref.shortName else ref.repository
  }

  /** When neither the image name nor the version holds a ':', splitting the
      rewritten image at ':' gives back exactly the name and the version, so the
      version is what a later `strings.Split(img, ":")[1]` reads. */
  lemma {:induction false} UpdatedImageSplits(ref: Reference, version: string)
    requires ':' !in UpdatedImageName(ref) && ':' !in version
    ensures Split(GetUpdatedImage(ref, version), ':') == [UpdatedImageName(ref), version]
  {
    var name := UpdatedImageName(ref);
    var s := GetUpdatedImage(ref, version);
    assert s == name + [':'] + version;
    var k := IndexOf(s, ':');
    assert k == |name| by {
      assert s[|name|] == ':';
      assert forall j :: 0 <= j < |name| ==> s[j] == name[j];
    }
    assert s[..k] == name;
    assert s[k + 1..] == version;
    assert Split(version, ':') == [version] by {
      assert IndexOf(version, ':') == |version|;
    }
  }

  /** getUnversionedPlanValues: the value path and the value to write for an image
      accepted for `newTag`. Without a tag path the whole image is written at the
      repository path; otherwise only the tag is written at the tag path. */
  function GetUnversionedPlanValues(newTag: string, ref: Reference, details: ImageDetails): (r: (string, string))
    ensures details.tagPath == "" ==> r == (details.repositoryPath, GetUpdatedImage(ref, newTag))
    ensures details.tagPath != "" ==> r == (details.tagPath, newTag)
  {
    if details.tagPath == "" then (details.repositoryPath, GetUpdatedImage(ref, newTag))
    else (details.tagPath, newTag)
  }

  /** getPlanValues: the same rule, with the version given by its string form
      (`newVersion.String()`; semantic-version printing is not part of this model). */
  function GetPlanValues(newVersionString: string, ref: Reference, details: ImageDetails): (r: (string, string))
    ensures details.tagPath == "" ==> r.0 == details.repositoryPath
    ensures details.tagPath != "" ==> r == (details.tagPath, newVersionString)
  {
    if details.tagPath == "" then (details.repositoryPath, GetUpdatedImage(ref, newVersionString))
    else (details.tagPath, newVersionString)
  }

  /** The two plan-value helpers agree on every input. */
  lemma PlanValuesAgree(version: string, ref: Reference, details: ImageDetails)
    ensures GetPlanValues(version, ref, details) == GetUnversionedPlanValues(version, ref, details)
  {
  }

  /** parseImage: the image an entry of the keel configuration points at. An empty
      repository path and a missing repository value are errors (None); a missing
      tag value parses the repository value alone; otherwise `name:tag` is parsed. */
  function ParseImage(vals: Values, details: ImageDetails, access: ChartAccess): (r: Option<Reference>)
    ensures details.repositoryPath == "" ==> r.None?
    ensures details.repositoryPath != "" && access.getValueAsString(vals, details.repositoryPath).Failure? ==> r.None?
    ensures details.repositoryPath != "" && access.getValueAsString(vals, details.repositoryPath).Success? ==>
      var name := access.getValueAsString(vals, details.repositoryPath).value;
      r == match access.getValueAsString(vals, details.tagPath)
           case Failure(_) => access.parse(name)
           case Success(tag) => access.parse(name + ":" + tag)
  {
    if details.repositoryPath == "" then None
    else match access.getValueAsString(vals, details.repositoryPath)
      case Failure(_) => None
      case Success(name) =>
        match access.getValueAsString(vals, details.tagPath)
        case Failure(_) => access.parse(name)
        case Success(tag) => access.parse(name + ":" + tag)
  }

  /** The tracked image for one entry, carrying the configuration's schedule,
      trigger and policy. */
  function Track(ref: Reference, cfg: BowConfig): TrackedImage
  {
    TrackedImage(ref, cfg.trigger, cfg.pollSchedule, "", map[], cfg.plc)
  }

  /** The tracked images of the entries `ds`, in order, skipping entries that do
      not parse. */
  function TrackedOf(vals: Values, cfg: BowConfig, ds: seq<ImageDetails>, access: ChartAccess): (r: seq<TrackedImage>)
    ensures |r| <= |ds|
    decreases |ds|
  {
    if ds == [] then []
    else
      var rest := TrackedOf(vals, cfg, ds[..|ds| - 1], access);
      match ParseImage(vals, ds[|ds| - 1], access)
      case None => rest
      case Some(ref) => rest + [Track(ref, cfg)]
  }

  /** Every tracked image comes from an entry that parses, and carries the
      configuration's schedule, trigger and policy. */
  lemma {:induction false} TrackedOfSound(vals: Values, cfg: BowConfig, ds: seq<ImageDetails>, access: ChartAccess, k: nat)
    requires k < |TrackedOf(vals, cfg, ds, access)|
    ensures exists j :: 0 <= j < |ds| && ParseImage(vals, ds[j], access) == Some(TrackedOf(vals, cfg, ds, access)[k].image)
    ensures TrackedOf(vals, cfg, ds, access)[k] == Track(TrackedOf(vals, cfg, ds, access)[k].image, cfg)
    decreases |ds|
  {
    var init := ds[..|ds| - 1];
    var rest := TrackedOf(vals, cfg, init, access);
    if k < |rest| {
      TrackedOfSound(vals, cfg, init, access, k);
      var j :| 0 <= j < |init| && ParseImage(vals, init[j], access) == Some(rest[k].image);
      assert ds[j] == init[j];
    } else {
      assert ParseImage(vals, ds[|ds| - 1], access).Some?;
    }
  }

  /** When every entry parses, there is exactly one tracked image per entry, in
      the entries' order. */
  lemma {:induction false} TrackedOfAllParse(vals: Values, cfg: BowConfig, ds: seq<ImageDetails>, access: ChartAccess)
    requires forall j :: 0 <= j < |ds| ==> ParseImage(vals, ds[j], access).Some?
    ensures |TrackedOf(vals, cfg, ds, access)| == |ds|
    ensures forall j :: 0 <= j < |ds| ==>
      TrackedOf(vals, cfg, ds, access)[j] == Track(ParseImage(vals, ds[j], access).value, cfg)
    decreases |ds|
  {
    if ds != [] {
      var init := ds[..|ds| - 1];
      TrackedOfAllParse(vals, cfg, init, access);
    }
  }

  /** When no entry parses, nothing is tracked. */
  lemma {:induction false} TrackedOfNoneParse(vals: Values, cfg: BowConfig, ds: seq<ImageDetails>, access: ChartAccess)
    requires forall j :: 0 <= j < |ds| ==> ParseImage(vals, ds[j], access).None?
    ensures TrackedOf(vals, cfg, ds, access) == []
    decreases |ds|
  {
    if ds != [] {
      TrackedOfNoneParse(vals, cfg, ds[..|ds| - 1], access);
    }
  }

  /** getImages: the tracked images of a chart's values. A missing policy means
      there is nothing to track (no error); any other configuration error is
      ErrBowConfigNotFound. */
  method GetImages(vals: Values, access: ChartAccess) returns (r: Result<seq<TrackedImage>, HelmError>)
    ensures access.getBowConfig(vals) == Failure(ErrPolicyNotSpecified) ==> r == Success([])
    ensures access.getBowConfig(vals).Failure? && access.getBowConfig(vals).error != ErrPolicyNotSpecified ==>
      r == Failure(ErrBowConfigNotFound)
    ensures access.getBowConfig(vals).Success? ==>
      var cfg := access.getBowConfig(vals).value;
      r == Success(TrackedOf(vals, cfg, cfg.images, access))
  {
    var images: seq<TrackedImage> := [];
    var cfgResult := access.getBowConfig(vals);
    if cfgResult.Failure? {
      if cfgResult.error == ErrPolicyNotSpecified {
        return Success(images);
      }
      return Failure(ErrBowConfigNotFound);
    }
    var cfg := cfgResult.value;
    var i := 0;
    while i < |cfg.images|
      invariant 0 <= i <= |cfg.images|
      invariant images == TrackedOf(vals, cfg, cfg.images[..i], access)
    {
      var details := cfg.images[i];
      assert cfg.images[..i + 1][..i] == cfg.images[..i];
      var imageRef := ParseImage(vals, details, access);
      if imageRef.Some? {
        images := images + [Track(imageRef.value, cfg)];
      }
      i := i + 1;
    }
    assert cfg.images[..i] == cfg.images;
    return Success(images);
  }
}
