/**
 * Domain classification: from a host to the project that owns it and the
 * way it was reached (public subdomain, external preview domain, custom
 * domain, or the `X-RTD-Slug` header).
 */
module DomainClassifier {
  import opened Wrappers
  import opened Strings
  import opened UnresolverTypes

  /** The configured `PUBLIC_DOMAIN` and `RTD_EXTERNAL_VERSION_DOMAIN`, as configured. */
  datatype Settings = Settings(publicDomain: string, externalVersionDomain: string)

  /** `get_domain_from_host`: the host lower-cased and cut before its first ':' (the port). */
  function GetDomainFromHost(host: string): (r: string)
    ensures ':' !in r
    ensures IsLower(r)
    ensures StartsWith(Lower(host), r)
    ensures r == Lower(host) || Lower(host)[|r|] == ':'
  {
    LowerIsLower(host);
    var parts := SplitFirst(Lower(host), ':');
    assert parts.1.Some? ==> Lower(host)[..|parts.0|] == parts.0;
    parts.0
  }

  /** A host that is already lower-case and has no port is its own domain. */
  lemma GetDomainFromHostOfDomain(host: string)
    requires IsLower(host) && ':' !in host
    ensures GetDomainFromHost(host) == host
  {
    LowerOfLower(host);
  }

  /** Normalising a host twice is normalising it once. */
  lemma GetDomainFromHostIdempotent(host: string)
    ensures GetDomainFromHost(GetDomainFromHost(host)) == GetDomainFromHost(host)
  {
    GetDomainFromHostOfDomain(GetDomainFromHost(host));
  }

  /** The public domain the hosts are compared with. */
  function PublicDomainOf(settings: Settings): (r: string)
    ensures ':' !in r && IsLower(r)
    ensures StartsWith(Lower(settings.publicDomain), r)
    ensures r == GetDomainFromHost(settings.publicDomain)
  {
    GetDomainFromHost(settings.publicDomain)
  }

  /** The external (pull request preview) domain the hosts are compared with. */
  function ExternalDomainOf(settings: Settings): (r: string)
    ensures ':' !in r && IsLower(r)
    ensures StartsWith(Lower(settings.externalVersionDomain), r)
    ensures r == GetDomainFromHost(settings.externalVersionDomain)
  {
    GetDomainFromHost(settings.externalVersionDomain)
  }

  /**
   * `domain.split(".", maxsplit=1)`: the first label and the root domain
   * after it ("" when the domain has no '.').
   */
  function SplitHost(domain: string): (r: (string, string))
    ensures '.' !in r.0
    ensures '.' in domain ==> domain == r.0 + "." + r.1
    ensures '.' !in domain ==> r == (domain, "")
  {
    var parts := SplitFirst(domain, '.');
    (parts.0, parts.1.GetOr(""))
  }

  /** `_resolve_project_slug`: the project with that slug, or `InvalidSubdomain`. */
  function ResolveProjectSlug(store: Store, slug: string, domain: string): (r: Result<Project>)
    ensures r.Ok? <==> slug in store.projects
    ensures r.Ok? ==> r.value == store.projects[slug]
    ensures r.Err? ==> r.error == InvalidSubdomain(domain)
  {
    if slug in store.projects then Ok(store.projects[slug]) else Err(InvalidSubdomain(domain))
  }

  /**
   * `unresolve_domain`: the public domain is checked first, then the
   * external domain, then the custom domains. A host that contains either
   * configured domain anywhere but not as its whole root domain is refused
   * as suspicious.
   */
  function UnresolveDomain(settings: Settings, store: Store, domain: string): (r: Result<UnresolvedDomain>)
    ensures r.Ok? ==> r.value.Valid() && r.value.sourceDomain == domain && !r.value.IsFromHttpHeader()
    ensures r.Err? ==> r.error.IsDomainError() && r.error.domain == domain
  {
    var publicDomain := PublicDomainOf(settings);
    var externalDomain := ExternalDomainOf(settings);
    var (subdomain, rootDomain) := SplitHost(domain);
    if Contains(domain, publicDomain) then
      if publicDomain == rootDomain then
        match ResolveProjectSlug(store, subdomain, domain)
        case Err(e) => Err(e)
        case Ok(project) => Ok(UnresolvedDomain(domain, PublicDomain, project, None, None))
      else Err(SuspiciousHostname(domain))
    else if Contains(domain, externalDomain) then
      if externalDomain == rootDomain then
        match RSplitOnce(subdomain, "--")
        case None => Err(InvalidExternalDomain(domain))
        case Some((projectSlug, versionSlug)) =>
          match ResolveProjectSlug(store, projectSlug, domain)
          case Err(e) => Err(e)
          case Ok(project) => Ok(UnresolvedDomain(domain, ExternalDomain, project, None, Some(versionSlug)))
      else Err(SuspiciousHostname(domain))
    else if domain in store.domains then
      var record := store.domains[domain];
      Ok(UnresolvedDomain(domain, CustomDomain, record.project, Some(record), None))
    else Err(InvalidCustomDomain(domain))
  }

  /** The slug named by the `X-RTD-Slug` header: lower-cased, "" when absent. */
  function HeaderSlug(xRtdSlug: Option<string>): (r: string)
    ensures IsLower(r)
    ensures xRtdSlug.None? ==> r == ""
    ensures xRtdSlug.Some? ==> |r| == |xRtdSlug.value|
    ensures xRtdSlug.Some? ==> r == Lower(xRtdSlug.value)
    ensures xRtdSlug.Some? && IsLower(xRtdSlug.value) ==> r == xRtdSlug.value
  {
    var slug := xRtdSlug.GetOr("");
    assert IsLower(slug) ==> Lower(slug) == slug by {
      if IsLower(slug) {
        LowerOfLower(slug);
      }
    }
    Lower(slug)
  }

  /**
   * `unresolve_domain_from_request`: a non-empty `X-RTD-Slug` header names
   * the project outright, provided that project has the
   * RESOLVE_PROJECT_FROM_HEADER feature; otherwise the request fails and
   * the host is not consulted. Without the header the host is classified.
   */
  function UnresolveDomainFromRequest(settings: Settings, store: Store, requestHost: string,
                                      xRtdSlug: Option<string>): (r: Result<UnresolvedDomain>)
    ensures r.Ok? ==> r.value.Valid() && r.value.sourceDomain == GetDomainFromHost(requestHost)
    ensures var slug := HeaderSlug(xRtdSlug);
      slug != "" ==>
        && (r.Ok? <==> slug in store.projects && slug in store.headerEnabled)
        && (r.Ok? ==> r.value.IsFromHttpHeader() && r.value.project == store.projects[slug])
        && (r.Err? ==> r.error == InvalidXRTDSlugHeader)
    ensures HeaderSlug(xRtdSlug) == "" ==> r == UnresolveDomain(settings, store, GetDomainFromHost(requestHost))
  {
    var host := GetDomainFromHost(requestHost);
    var slug := HeaderSlug(xRtdSlug);
    if slug != "" then
      if slug in store.projects && slug in store.headerEnabled then
        Ok(UnresolvedDomain(host, HttpHeader, store.projects[slug], None, None))
      else Err(InvalidXRTDSlugHeader)
    else UnresolveDomain(settings, store, host)
  }
}
