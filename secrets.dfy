/** Registry credentials from the default docker configuration (secrets/secrets.go):
    the getter, the lookup of a matching registry entry, and the base64 "user:pass"
    auth secret. Go strings in this module are byte strings. */
module Secrets {

  import opened Wrappers
  import opened Strings
  import opened Types
  import Base64

  type Bytes = Base64.Bytes

  /** ':' as a byte. */
  const Colon: Base64.byte := 58

  /** One entry of a docker configuration. */
  datatype Auth = Auth(username: Bytes, password: Bytes, email: Bytes, auth: Bytes)

  datatype Credentials = Credentials(username: Bytes, password: Bytes)

  /** Registry address to its entry. */
  type DockerCfg = map<string, Auth>

  const ErrSecretsNotSpecified := "no secrets were specified"
  const ErrIllegalBase64 := "illegal base64 data"
  const ErrUnexpectedFormat := "unexpected auth secret format"

  /** The registry matcher the lookup is given (it is not part of this model). */
  type RegistryMatcher = (string, string) -> bool

  /** decodeBase64Secret: the decoded text split at its first ':' only; an
      undecodable secret or one without ':' is an error. */
  function DecodeBase64Secret(authSecret: Bytes): (r: Result<(Bytes, Bytes), string>)
    ensures Base64.Decode(authSecret).None? ==> r == Failure(ErrIllegalBase64)
    ensures (Base64.Decode(authSecret).Some? && Colon !in Base64.Decode(authSecret).value)
              ==> r == Failure(ErrUnexpectedFormat)
    ensures (Base64.Decode(authSecret).Some? && Colon in Base64.Decode(authSecret).value) ==> r.Success?
    ensures r.Success? ==> Base64.Decode(authSecret) == Some(r.value.0 + [Colon] + r.value.1)
    ensures r.Success? ==> Colon !in r.value.0
  {
    match Base64.Decode(authSecret)
    case None => Failure(ErrIllegalBase64)
    case Some(decoded) =>
      var (user, rest) := SplitFirst(decoded, Colon);
      if rest.None? then Failure(ErrUnexpectedFormat) else Success((user, rest.value))
  }

  /** EncodeBase64Secret: the base64 text of "user:pass". */
  function EncodeBase64Secret(username: Bytes, password: Bytes): (r: Bytes)
    ensures |r| == 4 * ((|username| + 1 + |password| + 2) / 3)
    ensures Base64.Decode(r) == Some(username + [Colon] + password)
  {
    Base64.DecodeEncode(username + [Colon] + password);
    Base64.Encode(username + [Colon] + password)
  }

  /** Decoding undoes encoding whenever the user name has no ':'; the password
      may contain any byte. */
  lemma SecretRoundTrip(username: Bytes, password: Bytes)
    requires Colon !in username
    ensures DecodeBase64Secret(EncodeBase64Secret(username, password)) == Success((username, password))
  {
    Base64.DecodeEncode(username + [Colon] + password);
    SplitFirstAt(username, Colon, password);
  }

  /** The credentials an entry yields: a non-empty user name and password win,
      otherwise the decoded auth secret; an entry with neither, or whose secret
      does not decode, yields none. */
  function CredentialsOf(a: Auth): (r: Option<Credentials>)
    ensures a.username != [] && a.password != [] ==> r == Some(Credentials(a.username, a.password))
    ensures !(a.username != [] && a.password != []) ==>
              (r.Some? <==> DecodeBase64Secret(a.auth).Success?)
    ensures !(a.username != [] && a.password != []) && r.Some? ==>
              DecodeBase64Secret(a.auth) == Success((r.value.username, r.value.password))
  {
    if a.username != [] && a.password != [] then Some(Credentials(a.username, a.password))
    else if a.auth != [] then
      match DecodeBase64Secret(a.auth)
      case Failure(_) => None
      case Success((u, p)) => Some(Credentials(u, p))
    else None
  }

  /** The empty secret decodes to empty text, which has no ':', so it is
      rejected; the `Auth != ""` test only saves work. */
  lemma EmptySecretFails()
    ensures DecodeBase64Secret([]).Failure?
  {
  }

  /** `registry` is an entry of `cfg` that matches the image registry and yields
      credentials. */
  predicate Usable(imageRegistry: string, cfg: DockerCfg, registryMatches: RegistryMatcher, registry: string)
  {
    registry in cfg && registryMatches(imageRegistry, registry) && CredentialsOf(cfg[registry]).Some?
  }

  /** credentialsFromConfig: the configuration is visited in an unspecified
      order; the first usable matching entry gives the credentials. Without one,
      the credentials are empty and `found` is false. */
  method CredentialsFromConfig(imageRegistry: string, cfg: DockerCfg, registryMatches: RegistryMatcher)
    returns (credentials: Credentials, found: bool)
    ensures found <==> exists registry :: Usable(imageRegistry, cfg, registryMatches, registry)
    ensures found ==> exists registry :: Usable(imageRegistry, cfg, registryMatches, registry)
                                        && CredentialsOf(cfg[registry]) == Some(credentials)
    ensures !found ==> credentials == Credentials([], [])
  {
    credentials := Credentials([], []);
    found := false;
    var remaining := cfg.Keys;
    while remaining != {}
      invariant remaining <= cfg.Keys
      invariant forall registry :: registry in cfg && registry !in remaining
                  ==> !Usable(imageRegistry, cfg, registryMatches, registry)
      decreases |remaining|
    {
      var registry :| registry in remaining;
      remaining := remaining - {registry};
      if registryMatches(imageRegistry, registry) {
        var auth := cfg[registry];
        if auth.username != [] && auth.password != [] {
          credentials := Credentials(auth.username, auth.password);
        } else if auth.auth != [] {
          var decoded := DecodeBase64Secret(auth.auth);
          if decoded.Failure? {
            continue;
          }
          credentials := Credentials(decoded.value.0, decoded.value.1);
          found := true;
        } else {
          continue;
        }
        assert Usable(imageRegistry, cfg, registryMatches, registry);
        assert CredentialsOf(cfg[registry]) == Some(credentials);
        return credentials, true;
      }
    }
  }

  /** The default getter, holding the configuration supplied at start-up. */
  class DefaultGetter {
    var defaultDockerConfig: DockerCfg

    /** NewGetter: a missing configuration becomes an empty one. */
    constructor (cfg: Option<DockerCfg>)
      ensures cfg.None? ==> defaultDockerConfig == map[]
      ensures cfg.Some? ==> defaultDockerConfig == cfg.value
    {
      defaultDockerConfig := if cfg.None? then map[] else cfg.value;
    }

    /** Get: the credentials of a usable entry matching the image's registry,
        or ErrSecretsNotSpecified when there is none. */
    method Get(image: TrackedImage, registryMatches: RegistryMatcher) returns (r: Result<Credentials, string>)
      ensures r.Failure? <==> !exists registry :: Usable(image.image.registry, defaultDockerConfig, registryMatches, registry)
      ensures r.Failure? ==> r.error == ErrSecretsNotSpecified
      ensures r.Success? ==> exists registry :: Usable(image.image.registry, defaultDockerConfig, registryMatches, registry)
                                              && CredentialsOf(defaultDockerConfig[registry]) == Some(r.value)
    {
      var creds, found := CredentialsFromConfig(image.image.registry, defaultDockerConfig, registryMatches);
      if found {
        return Success(creds);
      }
      return Failure(ErrSecretsNotSpecified);
    }
  }

  /** hostname: a registry given as an http or https URL is reduced to its host
      by the URL parser (a parameter here); any other registry is kept. */
  function Hostname(registry: string, urlHostname: string -> Result<string, string>): (r: Result<string, string>)
    ensures !HasPrefix(registry, "http://") && !HasPrefix(registry, "https://") ==> r == Success(registry)
    ensures HasPrefix(registry, "http://") || HasPrefix(registry, "https://") ==> r == urlHostname(registry)
  {
    if HasPrefix(registry, "http://") || HasPrefix(registry, "https://") then urlHostname(registry)
    else Success(registry)
  }

  /** domainOnly: the registry up to its first ':' (the port is dropped). */
  function DomainOnly(registry: string): (r: string)
    ensures ':' !in r
    ensures ':' !in registry ==> r == registry
    ensures ':' in registry ==> |r| < |registry| && registry[..|r|] == r && registry[|r|] == ':'
  {
    if ':' in registry then Split(registry, ':')[0] else registry
  }

  /** Dropping the port twice is dropping it once. */
  lemma DomainOnlyIdempotent(registry: string)
    ensures DomainOnly(DomainOnly(registry)) == DomainOnly(registry)
  {
  }
}
