/**
 * The unresolver is the inverse of the URL builder: a URL built for a
 * project, version and file unresolves to exactly them. Also: both entry
 * points agree, and `index.html` is appended only to directories.
 */
module UnresolverProperties {
  import opened Wrappers
  import opened Strings
  import opened UnresolverTypes
  import opened PathPatterns
  import opened PathResolver
  import opened PathProperties
  import opened DomainClassifier
  import opened DomainProperties
  import opened Unresolver

  /** A filename as `_unresolve` finishes it when `index.html` is asked for. */
  function WithIndexHtml(filename: string): string {
    if EndsWith(filename, "/") then filename + "index.html" else filename
  }

  /**
   * Appending `index.html` changes only the filename, and only of a
   * directory; everything else is the same as without it.
   */
  lemma IndexHtmlOnlyForDirectories(store: Store, g: Grammar, unresolvedDomain: UnresolvedDomain,
                                    parsedUrl: ParsedUrl)
    ensures var plain := Unresolve(store, g, unresolvedDomain, parsedUrl, false);
      var appended := Unresolve(store, g, unresolvedDomain, parsedUrl, true);
      && (plain.Err? ==> appended == plain)
      && (plain.Ok? ==> appended == Ok(plain.value.(filename := WithIndexHtml(plain.value.filename))))
  {
  }

  /**
   * `unresolve_url` is `unresolve_path` on the domain the host classifies
   * to; only the recorded parsed URL differs.
   */
  lemma UrlAgreesWithPath(settings: Settings, store: Store, g: Grammar, netloc: string, path: string,
                          appendIndexHtml: bool)
    requires UnresolveDomain(settings, store, GetDomainFromHost(netloc)).Ok?
    ensures var unresolvedDomain := UnresolveDomain(settings, store, GetDomainFromHost(netloc)).value;
      var viaPath := UnresolvePath(store, g, unresolvedDomain, path, appendIndexHtml);
      var viaUrl := UnresolveUrl(settings, store, g, netloc, path, appendIndexHtml);
      && (viaPath.Err? ==> viaUrl == viaPath)
      && (viaPath.Ok? ==> viaUrl == Ok(viaPath.value.(parsedUrl := ParsedUrl(netloc, path))))
  {
  }

  /** Joining two lower-case strings gives a lower-case string. */
  lemma LowerConcat(a: string, b: string)
    requires IsLower(a) && IsLower(b)
    ensures IsLower(a + b)
  {
    assert forall i :: 0 <= i < |a + b| ==> (a + b)[i] == if i < |a| then a[i] else b[i - |a|];
  }

  /** `_unresolve` once the path has resolved. */
  lemma UnresolveResolved(store: Store, g: Grammar, unresolvedDomain: UnresolvedDomain, parsedUrl: ParsedUrl,
                          appendIndexHtml: bool, resolved: Resolved)
    requires ResolvePath(store, g, unresolvedDomain.project, parsedUrl.path, true,
                         unresolvedDomain.externalVersionSlug) == Ok(resolved)
    ensures Unresolve(store, g, unresolvedDomain, parsedUrl, appendIndexHtml)
         == Ok(UnresolvedUrl(unresolvedDomain.project, resolved.project, resolved.version,
                             if appendIndexHtml then WithIndexHtml(resolved.filename) else resolved.filename,
                             parsedUrl, unresolvedDomain.domain, unresolvedDomain.IsFromExternalDomain()))
  {
  }

  /** `_unresolve` when the path does not resolve. */
  lemma UnresolveRejected(store: Store, g: Grammar, unresolvedDomain: UnresolvedDomain, parsedUrl: ParsedUrl,
                          appendIndexHtml: bool, error: UnresolverError)
    requires ResolvePath(store, g, unresolvedDomain.project, parsedUrl.path, true,
                         unresolvedDomain.externalVersionSlug) == Err(error)
    ensures Unresolve(store, g, unresolvedDomain, parsedUrl, appendIndexHtml) == Err(error)
  {
  }

  /** `unresolve_url` once the host has been classified. */
  lemma UnresolveUrlClassified(settings: Settings, store: Store, g: Grammar, netloc: string, path: string,
                               appendIndexHtml: bool, unresolvedDomain: UnresolvedDomain)
    requires UnresolveDomain(settings, store, GetDomainFromHost(netloc)) == Ok(unresolvedDomain)
    ensures UnresolveUrl(settings, store, g, netloc, path, appendIndexHtml)
         == Unresolve(store, g, unresolvedDomain, ParsedUrl(netloc, path), appendIndexHtml)
  {
  }

  /**
   * A multiversion URL `{slug}.{public domain}/{language}/{version}/{file}`
   * for an existing internal version unresolves to that project, version and
   * file, from the public domain.
   */
  lemma PublicMultiversionRoundTrip(settings: Settings, store: Store, g: Grammar, slug: string,
                                    version: string, file: string)
    requires '.' !in slug && ':' !in slug && IsLower(slug)
    requires slug in store.projects && store.projects[slug].slug == slug
    requires !store.projects[slug].singleVersion
    requires IsSegment(store.projects[slug].language, g.langSlug)
    requires IsSegment(version, g.versionSlug) && g.filename(file) && !StartsWith(file, "/")
    requires Version(slug, version, Internal) in store.versions
    ensures var project := store.projects[slug];
      var host := slug + "." + PublicDomainOf(settings);
      var path := "/" + project.language + "/" + version + "/" + file;
      UnresolveUrl(settings, store, g, host, path, true)
        == Ok(UnresolvedUrl(project, project, Version(slug, version, Internal), WithIndexHtml("/" + file),
                            ParsedUrl(host, path), None, false))
  {
    var project := store.projects[slug];
    var pub := PublicDomainOf(settings);
    var host := slug + "." + pub;
    var path := "/" + project.language + "/" + version + "/" + file;
    var unresolvedDomain := UnresolvedDomain(host, PublicDomain, project, None, None);
    assert UnresolveDomain(settings, store, GetDomainFromHost(host)) == Ok(unresolvedDomain) by {
      LowerConcat(slug, ".");
      LowerConcat(slug + ".", pub);
      GetDomainFromHostOfDomain(host);
      PublicSubdomain(settings, store, slug);
    }
    var resolved := Resolved(project, Version(slug, version, Internal), "/" + file);
    OwnLanguagePath(store, g, project, version, file, true, None);
    UnresolveUrlClassified(settings, store, g, host, path, true, unresolvedDomain);
    UnresolveResolved(store, g, unresolvedDomain, ParsedUrl(host, path), true, resolved);
  }

  /**
   * A preview URL `{slug}--{build}.{external domain}/{language}/{version}/{file}`
   * serves the external version `build` when the path names that same
   * version, and is refused with `InvalidExternalVersion` when it names
   * another one, whether or not such a version exists.
   */
  lemma ExternalPreviewRoundTrip(settings: Settings, store: Store, g: Grammar, slug: string, build: string,
                                 version: string, file: string)
    requires '.' !in slug && ':' !in slug && IsLower(slug)
    requires '.' !in build && ':' !in build && IsLower(build) && build != ""
    requires forall j :: |slug| < j ==> !OccursAt(slug + "--" + build, "--", j)
    requires var host := slug + "--" + build + "." + ExternalDomainOf(settings);
      forall i :: !OccursAt(host, PublicDomainOf(settings), i)
    requires slug in store.projects && store.projects[slug].slug == slug
    requires !store.projects[slug].singleVersion
    requires IsSegment(store.projects[slug].language, g.langSlug)
    requires IsSegment(version, g.versionSlug) && g.filename(file) && !StartsWith(file, "/")
    ensures var project := store.projects[slug];
      var host := slug + "--" + build + "." + ExternalDomainOf(settings);
      var path := "/" + project.language + "/" + version + "/" + file;
      var r := UnresolveUrl(settings, store, g, host, path, true);
      && (version != build ==> r == Err(InvalidExternalVersion(project, Some(version), build)))
      && (version == build && Version(slug, build, External) in store.versions ==>
            r == Ok(UnresolvedUrl(project, project, Version(slug, build, External), WithIndexHtml("/" + file),
                                  ParsedUrl(host, path), None, true)))
      && (version == build && Version(slug, build, External) !in store.versions ==>
            r == Err(VersionNotFound(project, Some(build), "/" + file)))
  {
    var project := store.projects[slug];
    var ext := ExternalDomainOf(settings);
    var host := slug + "--" + build + "." + ext;
    var path := "/" + project.language + "/" + version + "/" + file;
    var unresolvedDomain := UnresolvedDomain(host, ExternalDomain, project, None, Some(build));
    assert UnresolveDomain(settings, store, GetDomainFromHost(host)) == Ok(unresolvedDomain) by {
      LowerConcat(slug, "--");
      LowerConcat(slug + "--", build);
      LowerConcat(slug + "--" + build, ".");
      LowerConcat(slug + "--" + build + ".", ext);
      GetDomainFromHostOfDomain(host);
      ExternalSubdomain(settings, store, slug, build);
    }
    UnresolveUrlClassified(settings, store, g, host, path, true, unresolvedDomain);
    OwnLanguagePath(store, g, project, version, file, true, Some(build));
    var key := Version(slug, build, External);
    if version != build {
      UnresolveRejected(store, g, unresolvedDomain, ParsedUrl(host, path), true,
                        InvalidExternalVersion(project, Some(version), build));
    } else if key in store.versions {
      UnresolveResolved(store, g, unresolvedDomain, ParsedUrl(host, path), true, Resolved(project, key, "/" + file));
    } else {
      UnresolveRejected(store, g, unresolvedDomain, ParsedUrl(host, path), true,
                        VersionNotFound(project, Some(build), "/" + file));
    }
  }

  /**
   * On a single-version project every path that is not under a known
   * subproject alias is a file of the default version.
   */
  lemma SingleVersionRoundTrip(settings: Settings, store: Store, g: Grammar, slug: string, path: string)
    requires '.' !in slug && ':' !in slug && IsLower(slug)
    requires slug in store.projects && store.projects[slug].slug == slug
    requires store.projects[slug].singleVersion
    requires Version(slug, store.projects[slug].defaultVersion, Internal) in store.versions
    requires forall s :: IsSubprojectPath(g, path, s) ==> SubprojectOf(store, store.projects[slug], s.alias).None?
    ensures var project := store.projects[slug];
      var host := slug + "." + PublicDomainOf(settings);
      var r := UnresolveUrl(settings, store, g, host, path, true);
      && r == Ok(UnresolvedUrl(project, project, Version(slug, project.defaultVersion, Internal),
                               WithIndexHtml(NormalizeFilename(Some(path))), ParsedUrl(host, path), None, false))
  {
    var project := store.projects[slug];
    var pub := PublicDomainOf(settings);
    var host := slug + "." + pub;
    var unresolvedDomain := UnresolvedDomain(host, PublicDomain, project, None, None);
    assert UnresolveDomain(settings, store, GetDomainFromHost(host)) == Ok(unresolvedDomain) by {
      LowerConcat(slug, ".");
      LowerConcat(slug + ".", pub);
      GetDomainFromHostOfDomain(host);
      PublicSubdomain(settings, store, slug);
    }
    var resolved := Resolved(project, Version(slug, project.defaultVersion, Internal), NormalizeFilename(Some(path)));
    assert ResolvePath(store, g, project, path, true, None) == Ok(resolved) by {
      SingleVersionServesWholePath(store, g, project, path, true, None);
    }
    UnresolveUrlClassified(settings, store, g, host, path, true, unresolvedDomain);
    UnresolveResolved(store, g, unresolvedDomain, ParsedUrl(host, path), true, resolved);
  }

  /**
   * The root of a single-version project, written "/" or left empty, is the
   * default version's `/index.html`.
   */
  lemma SingleVersionRootIsIndex(settings: Settings, store: Store, g: Grammar, slug: string, path: string)
    requires '.' !in slug && ':' !in slug && IsLower(slug)
    requires slug in store.projects && store.projects[slug].slug == slug
    requires store.projects[slug].singleVersion
    requires Version(slug, store.projects[slug].defaultVersion, Internal) in store.versions
    requires path == "" || path == "/"
    ensures var project := store.projects[slug];
      var host := slug + "." + PublicDomainOf(settings);
      UnresolveUrl(settings, store, g, host, path, true)
        == Ok(UnresolvedUrl(project, project, Version(slug, project.defaultVersion, Internal), "/index.html",
                            ParsedUrl(host, path), None, false))
  {
    var project := store.projects[slug];
    var host := slug + "." + PublicDomainOf(settings);
    var filename := WithIndexHtml(NormalizeFilename(Some(path)));
    assert UnresolveUrl(settings, store, g, host, path, true)
        == Ok(UnresolvedUrl(project, project, Version(slug, project.defaultVersion, Internal), filename,
                            ParsedUrl(host, path), None, false)) by {
      assert !StartsWith(path, "/projects/");
      ParseSubprojectNone(g, path);
      SingleVersionRoundTrip(settings, store, g, slug, path);
    }
    assert NormalizeFilename(Some(path)) == "/";
    RootWithIndexHtml();
  }

  /** The root directory finished with `index.html`. */
  lemma RootWithIndexHtml()
    ensures WithIndexHtml("/") == "/index.html"
  {
    assert EndsWith("/", "/");
  }

  /** A joined path that starts with a segment is normalised by a leading '/'. */
  lemma NormalizeJoined(a: string, b: string, c: string)
    requires a != "" && a[0] != '/'
    ensures NormalizeFilename(Some(a + "/" + b + "/" + c)) == "/" + a + "/" + b + "/" + c
  {
    var joined := a + "/" + b + "/" + c;
    assert joined[0] == a[0];
    assert "/" + joined == "/" + a + "/" + b + "/" + c;
  }

  /**
   * `/projects/{alias}/{language}/{version}/{file}` under a known alias is
   * served by the child project, with the domain's project as the parent,
   * provided the multiversion pattern does not take the path first.
   */
  lemma SubprojectRoundTrip(store: Store, g: Grammar, unresolvedDomain: UnresolvedDomain, alias: string,
                            child: Project, version: string, file: string)
    requires SubprojectOf(store, unresolvedDomain.project, alias) == Some(child)
    requires unresolvedDomain.project.singleVersion || !g.langSlug("projects")
    requires !IsGiven(unresolvedDomain.externalVersionSlug)
    requires !child.singleVersion
    requires IsSegment(alias, g.projectSlug)
    requires IsSegment(child.language, g.langSlug) && IsSegment(version, g.versionSlug)
    requires g.filename(file) && !StartsWith(file, "/")
    requires g.filename(child.language + "/" + version + "/" + file)
    requires Version(child.slug, version, Internal) in store.versions
    ensures var path := "/projects/" + alias + "/" + child.language + "/" + version + "/" + file;
      UnresolvePath(store, g, unresolvedDomain, path, false)
        == Ok(UnresolvedUrl(unresolvedDomain.project, child, Version(child.slug, version, Internal), "/" + file,
                            ParsedUrl("", path), unresolvedDomain.domain, unresolvedDomain.IsFromExternalDomain()))
  {
    var parent := unresolvedDomain.project;
    var path := "/projects/" + alias + "/" + child.language + "/" + version + "/" + file;
    var resolved := Resolved(child, Version(child.slug, version, Internal), "/" + file);
    assert ResolvePath(store, g, parent, path, true, unresolvedDomain.externalVersionSlug) == Ok(resolved) by {
      SubprojectPathResolves(store, g, parent, alias, child, version, file, unresolvedDomain.externalVersionSlug);
    }
    UnresolveResolved(store, g, unresolvedDomain, ParsedUrl("", path), false, resolved);
  }

  /** `SubprojectRoundTrip` for the path resolution alone. */
  lemma SubprojectPathResolves(store: Store, g: Grammar, parent: Project, alias: string, child: Project,
                               version: string, file: string, externalVersionSlug: Option<string>)
    requires SubprojectOf(store, parent, alias) == Some(child)
    requires parent.singleVersion || !g.langSlug("projects")
    requires !IsGiven(externalVersionSlug)
    requires !child.singleVersion
    requires IsSegment(alias, g.projectSlug)
    requires IsSegment(child.language, g.langSlug) && IsSegment(version, g.versionSlug)
    requires g.filename(file) && !StartsWith(file, "/")
    requires g.filename(child.language + "/" + version + "/" + file)
    requires Version(child.slug, version, Internal) in store.versions
    ensures ResolvePath(store, g, parent, "/projects/" + alias + "/" + child.language + "/" + version + "/" + file,
                        true, externalVersionSlug)
         == Ok(Resolved(child, Version(child.slug, version, Internal), "/" + file))
  {
    var rest := child.language + "/" + version + "/" + file;
    var path := "/projects/" + alias + "/" + child.language + "/" + version + "/" + file;
    assert path == "/projects/" + alias + "/" + rest;
    assert path == "/projects/" + (alias + "/" + rest);
    if !parent.singleVersion {
      ProjectsIsNotALanguage(g, alias + "/" + rest);
    }
    KnownAliasResolvesInChild(store, g, parent, path, externalVersionSlug, SubprojectMatch(alias, Some(rest)), child);
    NormalizeJoined(child.language, version, file);
    OwnLanguagePath(store, g, child, version, file, false, externalVersionSlug);
  }
}
