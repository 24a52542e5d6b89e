/**
 * The unresolver's entry points: a whole URL (host and path) or a path
 * against an already classified domain, both resolved by one function that
 * also turns directory paths into their `index.html`.
 */
module Unresolver {
  import opened Strings
  import opened UnresolverTypes
  import opened PathPatterns
  import opened PathResolver
  import opened DomainClassifier

  /**
   * `_unresolve`: resolve the path against the domain's project, append
   * `index.html` to a directory when asked, and record where the domain
   * came from.
   */
  function Unresolve(store: Store, g: Grammar, unresolvedDomain: UnresolvedDomain, parsedUrl: ParsedUrl,
                     appendIndexHtml: bool): (r: Result<UnresolvedUrl>)
    ensures var resolved := ResolvePath(store, g, unresolvedDomain.project, parsedUrl.path, true,
                                        unresolvedDomain.externalVersionSlug);
      && (r.Err? <==> resolved.Err?)
      && (r.Err? ==> r.error == resolved.error)
      && (r.Ok? ==>
            && r.value.parentProject == unresolvedDomain.project
            && r.value.project == resolved.value.project
            && r.value.version == resolved.value.version
            && r.value.parsedUrl == parsedUrl
            && r.value.domain == unresolvedDomain.domain
            && (r.value.external <==> unresolvedDomain.source == ExternalDomain)
            && StartsWith(r.value.filename, "/")
            && (appendIndexHtml ==> !EndsWith(r.value.filename, "/"))
            && (!appendIndexHtml ==> r.value.filename == resolved.value.filename))
  {
    match ResolvePath(store, g, unresolvedDomain.project, parsedUrl.path, true, unresolvedDomain.externalVersionSlug)
    case Err(e) => Err(e)
    case Ok(resolved) =>
      var filename :=
        if appendIndexHtml && EndsWith(resolved.filename, "/") then resolved.filename + "index.html"
        else resolved.filename;
      assert appendIndexHtml && EndsWith(resolved.filename, "/") ==>
        filename[..1] == resolved.filename[..1] && filename[|filename| - 1] == 'l';
      Ok(UnresolvedUrl(unresolvedDomain.project, resolved.project, resolved.version, filename, parsedUrl,
                       unresolvedDomain.domain, unresolvedDomain.IsFromExternalDomain()))
  }

  /** `unresolve_url`: classify the host, then resolve the path. */
  function UnresolveUrl(settings: Settings, store: Store, g: Grammar, netloc: string, path: string,
                        appendIndexHtml: bool): (r: Result<UnresolvedUrl>)
    ensures UnresolveDomain(settings, store, GetDomainFromHost(netloc)).Err? ==>
      r == Err(UnresolveDomain(settings, store, GetDomainFromHost(netloc)).error)
    ensures r.Ok? ==> r.value.parsedUrl == ParsedUrl(netloc, path)
    ensures r.Ok? && r.value.domain.Some? ==>
      && GetDomainFromHost(netloc) in store.domains
      && r.value.domain.value == store.domains[GetDomainFromHost(netloc)]
      && r.value.parentProject == r.value.domain.value.project
      && !r.value.external
  {
    var domain := GetDomainFromHost(netloc);
    match UnresolveDomain(settings, store, domain)
    case Err(e) => Err(e)
    case Ok(unresolvedDomain) => Unresolve(store, g, unresolvedDomain, ParsedUrl(netloc, path), appendIndexHtml)
  }

  /** `unresolve_path`: resolve a path against a domain classified earlier. */
  function UnresolvePath(store: Store, g: Grammar, unresolvedDomain: UnresolvedDomain, path: string,
                         appendIndexHtml: bool): (r: Result<UnresolvedUrl>)
    ensures r.Ok? ==> r.value.parsedUrl == ParsedUrl("", path) && r.value.parentProject == unresolvedDomain.project
    ensures unresolvedDomain.Valid() && r.Ok? ==> (r.value.domain.Some? <==> unresolvedDomain.IsFromCustomDomain())
  {
    Unresolve(store, g, unresolvedDomain, ParsedUrl("", path), appendIndexHtml)
  }
}
