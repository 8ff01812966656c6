/**
  `S3AsyncClient`: the storage settings a bucket class carries, checked when
  the client is constructed. The endpoint URL is built from the configured
  domain, which must not carry a scheme of its own; the bucket name and the
  default ACL, which subclasses provide as class attributes, must be
  present and non-empty.
*/
module S3Client {
  import opened Util
  import opened PyStr
  import opened Errors

  /** What the constructor reads: the domain and TLS flag from the settings,
      and the class attributes a subclass may define (absent or `None` is
      `None`, an optional `custom_domain` included). */
  datatype ClientConfig = ClientConfig(
    domain: string,
    useSsl: bool,
    bucketName: Option<string>,
    defaultAcl: Option<string>,
    customDomain: Option<string>)

  /** A constructed client. */
  datatype Storage = Storage(
    endpointDomain: string,
    useSsl: bool,
    endpointUrl: string,
    bucketName: string,
    defaultAcl: string,
    customDomain: Option<string>)

  const SchemeInDomainText: string :=
    "settings.MINIO_DOMAIN should not start with 'http' or 'https'. Please use just the domain name."
  const NoBucketText: string := "The 'bucket_name' attribute is required and cannot be empty."
  const NoAclText: string := "The 'default_acl' attribute is required and cannot be empty."

  /** `"https" if use_ssl else "http"`. */
  function Protocol(useSsl: bool): string {
    if useSsl then "https" else "http"
  }

  /** `_get_endpoint_url`: `ValueError` for a domain starting with `http`,
      otherwise the domain behind the protocol. */
  function EndpointUrl(domain: string, useSsl: bool): (r: Result<string, Error>)
    ensures r.Err? <==> StartsWith(domain, "http")
    ensures r.Err? ==> r.error == Raise(Foreign("ValueError"), SchemeInDomainText)
    ensures r.Ok? ==> (StartsWith(r.value, "https://") <==> useSsl)
    ensures r.Ok? ==> EndsWith(r.value, domain)
  {
    if StartsWith(domain, "http") then Err(Raise(Foreign("ValueError"), SchemeInDomainText))
    else
      var url := Protocol(useSsl) + "://" + domain;
      assert !useSsl ==> url[4] == ':';
      assert url[|url| - |domain|..] == domain;
      Ok(url)
  }

  /** The domain is recovered from the endpoint by dropping the scheme,
      whichever protocol was chosen. */
  lemma EndpointKeepsDomain(domain: string, useSsl: bool)
    requires EndpointUrl(domain, useSsl).Ok?
    ensures EndpointUrl(domain, useSsl).value[|Protocol(useSsl)| + 3..] == domain
  {
  }

  /** An attribute that is present and truthy. */
  predicate Given(v: Option<string>) {
    v.Some? && v.value != ""
  }

  /** `__init__`: the endpoint is checked before the attributes, and the
      bucket name before the ACL, so the first failing check is reported. */
  function NewClient(cfg: ClientConfig): (r: Result<Storage, Error>)
    ensures r.Ok? <==> !StartsWith(cfg.domain, "http") && Given(cfg.bucketName) && Given(cfg.defaultAcl)
    ensures StartsWith(cfg.domain, "http") ==> r == Err(Raise(Foreign("ValueError"), SchemeInDomainText))
    ensures !StartsWith(cfg.domain, "http") && !Given(cfg.bucketName) ==> r == Err(Raise(Foreign("ValueError"), NoBucketText))
    ensures !StartsWith(cfg.domain, "http") && Given(cfg.bucketName) && !Given(cfg.defaultAcl) ==>
      r == Err(Raise(Foreign("ValueError"), NoAclText))
    ensures r.Ok? ==>
      && r.value.endpointUrl == EndpointUrl(cfg.domain, cfg.useSsl).value
      && r.value.bucketName == cfg.bucketName.value && r.value.defaultAcl == cfg.defaultAcl.value
      && r.value.endpointDomain == cfg.domain && r.value.useSsl == cfg.useSsl
      && r.value.customDomain == cfg.customDomain
  {
    match EndpointUrl(cfg.domain, cfg.useSsl)
    case Err(e) => Err(e)
    case Ok(url) =>
      if !Given(cfg.bucketName) then Err(Raise(Foreign("ValueError"), NoBucketText))
      else if !Given(cfg.defaultAcl) then Err(Raise(Foreign("ValueError"), NoAclText))
      else Ok(Storage(cfg.domain, cfg.useSsl, url, cfg.bucketName.value, cfg.defaultAcl.value, cfg.customDomain))
  }

  /** A domain with a scheme is reported even when the attributes are
      missing too. */
  lemma DomainCheckedFirst(domain: string, useSsl: bool)
    requires StartsWith(domain, "http")
    ensures NewClient(ClientConfig(domain, useSsl, None, None, None)).error.message == SchemeInDomainText
  {
  }
}
