/**
 * What path resolution promises: the order of the matchers, the error each
 * committed matcher raises, the version a preview domain may serve and the
 * one-level bound on subproject nesting.
 */
module PathProperties {
  import opened Wrappers
  import opened Strings
  import opened UnresolverTypes
  import opened PathPatterns
  import opened PathResolver

  /**
   * For a multiversion project, a path of the shape `/{lang}/{version}/{file}`
   * is decided by the multiversion matcher alone, whether or not subprojects
   * are checked: a missing translation, then a disagreeing external version,
   * then a version missing from the manager the external slug selects.
   */
  lemma MultiversionCommits(store: Store, g: Grammar, parent: Project, path: string, checkSubprojects: bool,
                            externalVersionSlug: Option<string>, m: MultiversionMatch)
    requires !parent.singleVersion
    requires IsMultiversionPath(g, path, m)
    ensures var r := ResolvePath(store, g, parent, path, checkSubprojects, externalVersionSlug);
      var file := NormalizeFilename(m.file);
      var target := ProjectForLanguage(store, parent, m.language);
      && (target.None? ==> r == Err(TranslationNotFound(parent, m.language, file)))
      && (target.Some? && IsGiven(externalVersionSlug) && m.version != Some(externalVersionSlug.value) ==>
            r == Err(InvalidExternalVersion(target.value, m.version, externalVersionSlug.value)))
      && (target.Some? && !(IsGiven(externalVersionSlug) && m.version != Some(externalVersionSlug.value)) ==>
            var key := Version(target.value.slug, m.version.GetOr(""), ManagerFor(externalVersionSlug));
            if m.version.Some? && key in store.versions
            then r == Ok(Resolved(target.value, key, file))
            else r == Err(VersionNotFound(target.value, m.version, file)))
  {
    ParseMultiversionComplete(g, path, m);
  }

  /**
   * `/{language}/{version}/{file}` in the project's own language is that
   * file of that version of the project itself, when the version agrees with
   * the external slug and exists in the manager the slug selects.
   */
  lemma OwnLanguagePath(store: Store, g: Grammar, parent: Project, version: string, file: string,
                        checkSubprojects: bool, externalVersionSlug: Option<string>)
    requires !parent.singleVersion
    requires IsSegment(parent.language, g.langSlug) && IsSegment(version, g.versionSlug)
    requires g.filename(file) && !StartsWith(file, "/")
    ensures var key := Version(parent.slug, version, ManagerFor(externalVersionSlug));
      ResolvePath(store, g, parent, "/" + parent.language + "/" + version + "/" + file, checkSubprojects,
                  externalVersionSlug)
        == if IsGiven(externalVersionSlug) && externalVersionSlug.value != version
           then Err(InvalidExternalVersion(parent, Some(version), externalVersionSlug.value))
           else if key in store.versions then Ok(Resolved(parent, key, "/" + file))
           else Err(VersionNotFound(parent, Some(version), "/" + file))
  {
    var path := "/" + parent.language + "/" + version + "/" + file;
    var m := MultiversionMatch(parent.language, Some(version), Some(file));
    assert IsMultiversionPath(g, path, m);
    assert NormalizeFilename(m.file) == "/" + file;
    MultiversionCommits(store, g, parent, path, checkSubprojects, externalVersionSlug, m);
  }

  /**
   * A path the multiversion pattern does not take, that is not under a known
   * subproject alias, is rejected for a multiversion project with the
   * normalised path.
   */
  lemma NoMatcherApplies(store: Store, g: Grammar, parent: Project, path: string, checkSubprojects: bool,
                         externalVersionSlug: Option<string>)
    requires !parent.singleVersion
    requires forall m :: !IsMultiversionPath(g, path, m)
    requires checkSubprojects ==> forall s :: IsSubprojectPath(g, path, s) ==> SubprojectOf(store, parent, s.alias).None?
    ensures ResolvePath(store, g, parent, path, checkSubprojects, externalVersionSlug)
         == Err(InvalidPathForVersionedProject(parent, NormalizeFilename(Some(path))))
  {
    ParseMultiversionNone(g, path);
  }

  /**
   * A path under a known subproject alias, that the multiversion matcher
   * does not take first, is resolved against the child exactly as the rest of
   * the path would be, with subprojects switched off.
   */
  lemma KnownAliasResolvesInChild(store: Store, g: Grammar, parent: Project, path: string,
                                  externalVersionSlug: Option<string>, s: SubprojectMatch, child: Project)
    requires IsSubprojectPath(g, path, s)
    requires SubprojectOf(store, parent, s.alias) == Some(child)
    requires parent.singleVersion || forall m :: !IsMultiversionPath(g, path, m)
    ensures ResolvePath(store, g, parent, path, true, externalVersionSlug)
         == ResolvePath(store, g, child, NormalizeFilename(s.file), false, externalVersionSlug)
  {
    ParseMultiversionNone(g, path);
    ParseSubprojectComplete(g, path, s);
  }

  /**
   * For a single-version project every path that is not under a known
   * subproject alias is one file of one version: the external version when
   * one is given (EXTERNAL manager), else the default version (INTERNAL).
   */
  lemma SingleVersionServesWholePath(store: Store, g: Grammar, parent: Project, path: string, checkSubprojects: bool,
                                     externalVersionSlug: Option<string>)
    requires parent.singleVersion
    requires checkSubprojects ==> forall s :: IsSubprojectPath(g, path, s) ==> SubprojectOf(store, parent, s.alias).None?
    ensures var slug := if IsGiven(externalVersionSlug) then externalVersionSlug.value else parent.defaultVersion;
      var key := Version(parent.slug, slug, if IsGiven(externalVersionSlug) then External else Internal);
      var file := NormalizeFilename(Some(path));
      ResolvePath(store, g, parent, path, checkSubprojects, externalVersionSlug)
        == if key in store.versions then Ok(Resolved(parent, key, file))
           else Err(VersionNotFound(parent, Some(slug), file))
  {
  }

  /**
   * The version served is a version of the serving project, taken from the
   * EXTERNAL manager exactly when an external version slug is given, and
   * then it is that very version: a preview domain serves only its own build.
   */
  lemma {:induction false} ResolvedVersion(store: Store, g: Grammar, parent: Project, path: string,
                                           checkSubprojects: bool, externalVersionSlug: Option<string>)
    requires ResolvePath(store, g, parent, path, checkSubprojects, externalVersionSlug).Ok?
    ensures var r := ResolvePath(store, g, parent, path, checkSubprojects, externalVersionSlug).value;
      && r.version in store.versions
      && r.version.projectSlug == r.project.slug
      && (r.version.manager == External <==> IsGiven(externalVersionSlug))
      && (IsGiven(externalVersionSlug) ==> r.version.slug == externalVersionSlug.value)
    decreases if checkSubprojects then 1 else 0
  {
    var multiversion :=
      if !parent.singleVersion then MatchMultiversionProject(store, g, parent, path, externalVersionSlug)
      else NoMatch;
    if multiversion.NoMatch? && checkSubprojects {
      var subproject := MatchSubproject(store, g, parent, path, externalVersionSlug);
      if !subproject.NoMatch? {
        var s := ParseSubproject(g, path).value;
        var child := SubprojectOf(store, parent, s.alias).value;
        ResolvedVersion(store, g, child, NormalizeFilename(s.file), false, externalVersionSlug);
      }
    }
  }

  /** `p` is `parent` or one of its translations. */
  ghost predicate ServesDirectly(store: Store, parent: Project, p: Project) {
    exists language :: ProjectForLanguage(store, parent, language) == Some(p)
  }

  /** `p` is a subproject of `parent`, or a translation of one. */
  ghost predicate ServesThroughSubproject(store: Store, parent: Project, p: Project) {
    exists alias :: SubprojectOf(store, parent, alias).Some? && ServesDirectly(store, SubprojectOf(store, parent, alias).value, p)
  }

  /**
   * Subprojects nest at most one level: the serving project is the parent or
   * its translation, or (only when subprojects are checked) a subproject of
   * the parent or its translation, never a subproject of a subproject.
   */
  lemma {:induction false} ServedProjectIsNear(store: Store, g: Grammar, parent: Project, path: string,
                                               checkSubprojects: bool, externalVersionSlug: Option<string>)
    requires ResolvePath(store, g, parent, path, checkSubprojects, externalVersionSlug).Ok?
    ensures var p := ResolvePath(store, g, parent, path, checkSubprojects, externalVersionSlug).value.project;
      ServesDirectly(store, parent, p) || (checkSubprojects && ServesThroughSubproject(store, parent, p))
    decreases if checkSubprojects then 1 else 0
  {
    var r := ResolvePath(store, g, parent, path, checkSubprojects, externalVersionSlug).value;
    var multiversion :=
      if !parent.singleVersion then MatchMultiversionProject(store, g, parent, path, externalVersionSlug)
      else NoMatch;
    if !multiversion.NoMatch? {
      var m := ParseMultiversion(g, path).value;
      assert ProjectForLanguage(store, parent, m.language) == Some(r.project);
    } else if checkSubprojects && !MatchSubproject(store, g, parent, path, externalVersionSlug).NoMatch? {
      var s := ParseSubproject(g, path).value;
      var child := SubprojectOf(store, parent, s.alias).value;
      ServedProjectIsNear(store, g, child, NormalizeFilename(s.file), false, externalVersionSlug);
      assert ServesDirectly(store, child, r.project);
    } else {
      assert ProjectForLanguage(store, parent, parent.language) == Some(r.project);
    }
  }

  /** The multiversion matcher reads only the versions and the translations. */
  lemma MultiversionReadsVersionsAndTranslations(store: Store, other: Store, g: Grammar, parent: Project,
                                                 path: string, externalVersionSlug: Option<string>)
    requires other.versions == store.versions && other.translations == store.translations
    ensures MatchMultiversionProject(store, g, parent, path, externalVersionSlug)
         == MatchMultiversionProject(other, g, parent, path, externalVersionSlug)
  {
    match ParseMultiversion(g, path)
    case None =>
    case Some(m) =>
      var manager := ManagerFor(externalVersionSlug);
      assert ProjectForLanguage(store, parent, m.language) == ProjectForLanguage(other, parent, m.language);
      var project := ProjectForLanguage(store, parent, m.language);
      if project.Some? {
        assert FindVersion(store, project.value, manager, m.version)
            == FindVersion(other, project.value, manager, m.version);
      }
  }

  /**
   * `/projects/{alias}/projects/{alias2}/` is resolved in the child as the
   * path `/projects/{alias2}/`, never in a grandchild. A multiversion child
   * then rejects it as an invalid path when `projects` is not a language
   * slug; a single-version child serves it as a file of its own.
   */
  lemma NestedSubprojectStopsAtChild(store: Store, g: Grammar, parent: Project, alias: string, child: Project,
                                     alias2: string, externalVersionSlug: Option<string>)
    requires SubprojectOf(store, parent, alias) == Some(child)
    requires parent.singleVersion || !g.langSlug("projects")
    requires IsSegment(alias, g.projectSlug) && g.filename("projects/" + alias2 + "/")
    ensures var path := "/projects/" + alias + "/projects/" + alias2 + "/";
      var inner := "/projects/" + alias2 + "/";
      var r := ResolvePath(store, g, parent, path, true, externalVersionSlug);
      && r == ResolvePath(store, g, child, inner, false, externalVersionSlug)
      && (!child.singleVersion && !g.langSlug("projects") ==> r == Err(InvalidPathForVersionedProject(child, inner)))
      && (child.singleVersion ==> r.Ok? ==> r.value.project == child && r.value.filename == inner)
  {
    var path := "/projects/" + alias + "/projects/" + alias2 + "/";
    var inner := "/projects/" + alias2 + "/";
    var rest := "projects/" + alias2 + "/";
    assert path == "/projects/" + alias + "/" + rest;
    assert inner == "/" + rest;
    NestedPathGoesToChild(store, g, parent, alias, child, rest, externalVersionSlug);
    if !child.singleVersion && !g.langSlug("projects") {
      assert inner == "/projects/" + (alias2 + "/");
      ProjectsIsNotALanguage(g, alias2 + "/");
      NoMatcherApplies(store, g, child, inner, false, externalVersionSlug);
    }
    if child.singleVersion {
      assert NormalizeFilename(Some(inner)) == inner;
    }
  }

  /** `NestedSubprojectStopsAtChild` up to the step into the child. */
  lemma NestedPathGoesToChild(store: Store, g: Grammar, parent: Project, alias: string, child: Project,
                              rest: string, externalVersionSlug: Option<string>)
    requires SubprojectOf(store, parent, alias) == Some(child)
    requires parent.singleVersion || !g.langSlug("projects")
    requires IsSegment(alias, g.projectSlug) && g.filename(rest)
    requires rest != "" && rest[0] != '/'
    ensures ResolvePath(store, g, parent, "/projects/" + alias + "/" + rest, true, externalVersionSlug)
         == ResolvePath(store, g, child, "/" + rest, false, externalVersionSlug)
  {
    var path := "/projects/" + alias + "/" + rest;
    if !parent.singleVersion {
      assert path == "/projects/" + (alias + "/" + rest);
      ProjectsIsNotALanguage(g, alias + "/" + rest);
    }
    KnownAliasResolvesInChild(store, g, parent, path, externalVersionSlug, SubprojectMatch(alias, Some(rest)), child);
  }

  /**
   * With subprojects switched off, resolution reads only the versions and
   * the translations: two stores that agree on those resolve every path
   * alike, whatever their projects, subprojects and domains.
   */
  lemma UncheckedIgnoresSubprojects(store: Store, other: Store, g: Grammar, parent: Project, path: string,
                                    externalVersionSlug: Option<string>)
    requires other.versions == store.versions && other.translations == store.translations
    ensures ResolvePath(store, g, parent, path, false, externalVersionSlug)
         == ResolvePath(other, g, parent, path, false, externalVersionSlug)
  {
    MultiversionReadsVersionsAndTranslations(store, other, g, parent, path, externalVersionSlug);
    assert MatchSingleVersionProject(store, parent, path, externalVersionSlug)
        == MatchSingleVersionProject(other, parent, path, externalVersionSlug);
  }

  /** Resolution depends on the external version slug only through the three matchers. */
  lemma SameMatchersSameResolution(store: Store, g: Grammar, parent: Project, path: string, checkSubprojects: bool,
                                   slug1: Option<string>, slug2: Option<string>)
    requires MatchMultiversionProject(store, g, parent, path, slug1)
          == MatchMultiversionProject(store, g, parent, path, slug2)
    requires checkSubprojects ==>
      MatchSubproject(store, g, parent, path, slug1) == MatchSubproject(store, g, parent, path, slug2)
    requires MatchSingleVersionProject(store, parent, path, slug1) == MatchSingleVersionProject(store, parent, path, slug2)
    ensures ResolvePath(store, g, parent, path, checkSubprojects, slug1)
         == ResolvePath(store, g, parent, path, checkSubprojects, slug2)
  {
  }

  /**
   * An empty external version slug is false in Python and behaves as if none
   * were given: the host `project--.<external domain>` serves internal
   * versions.
   */
  lemma {:induction false} EmptyExternalSlugIsIgnored(store: Store, g: Grammar, parent: Project, path: string,
                                                      checkSubprojects: bool)
    ensures ResolvePath(store, g, parent, path, checkSubprojects, Some(""))
         == ResolvePath(store, g, parent, path, checkSubprojects, None)
    decreases if checkSubprojects then 1 else 0
  {
    assert MatchMultiversionProject(store, g, parent, path, Some(""))
        == MatchMultiversionProject(store, g, parent, path, None) by {
      assert !IsGiven(Some("")) && ManagerFor(Some("")) == ManagerFor(None);
    }
    assert MatchSingleVersionProject(store, parent, path, Some(""))
        == MatchSingleVersionProject(store, parent, path, None) by {
      assert !IsGiven(Some("")) && ManagerFor(Some("")) == ManagerFor(None);
    }
    if checkSubprojects {
      var s := ParseSubproject(g, path);
      if s.Some? && SubprojectOf(store, parent, s.value.alias).Some? {
        var child := SubprojectOf(store, parent, s.value.alias).value;
        EmptyExternalSlugIsIgnored(store, g, child, NormalizeFilename(s.value.file), false);
      }
      assert MatchSubproject(store, g, parent, path, Some("")) == MatchSubproject(store, g, parent, path, None);
    }
    SameMatchersSameResolution(store, g, parent, path, checkSubprojects, Some(""), None);
  }
}
