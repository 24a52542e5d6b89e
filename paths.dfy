/**
 * Path resolution: from a parent project and a path to the project that
 * serves it, the version and the file. Three matchers are tried in order;
 * a matcher that recognises the shape of the path commits to it, returning
 * a result or failing, and only `NoMatch` passes the path on.
 */
module PathResolver {
  import opened Wrappers
  import opened Strings
  import opened UnresolverTypes
  import opened PathPatterns

  /** The project, version and file a path resolved to. */
  datatype Resolved = Resolved(project: Project, version: Version, filename: string)

  /** What one matcher made of a path. */
  datatype MatchResult =
    | NoMatch
    | Matched(resolved: Resolved)
    | Failed(error: UnresolverError)

  /** A matcher's outcome as the outcome of the whole resolution, once it committed. */
  function Commit(m: MatchResult): Result<Resolved>
    requires !m.NoMatch?
  {
    if m.Matched? then Ok(m.resolved) else Err(m.error)
  }

  /**
   * Normalise a filename to start with '/': `None` and the empty string
   * (both false in Python) become "/".
   */
  function NormalizeFilename(filename: Option<string>): (r: string)
    ensures StartsWith(r, "/")
    ensures filename.None? || filename == Some("") ==> r == "/"
    ensures filename.Some? && StartsWith(filename.value, "/") ==> r == filename.value
    ensures filename.Some? && filename.value != "" ==> r == filename.value || r == "/" + filename.value
  {
    var f := filename.GetOr("");
    if f == "" then "/"
    else if f[0] == '/' then f
    else "/" + f
  }

  /** Normalising twice is normalising once. */
  lemma NormalizeFilenameIdempotent(filename: Option<string>)
    ensures NormalizeFilename(Some(NormalizeFilename(filename))) == NormalizeFilename(filename)
  {
  }

  /** Python truthiness of the external version slug: given and not empty. */
  predicate IsGiven(externalVersionSlug: Option<string>): (r: bool)
    ensures externalVersionSlug.None? ==> !r
    ensures externalVersionSlug == Some("") ==> !r
    ensures r ==> |externalVersionSlug.value| > 0
    ensures externalVersionSlug.Some? && externalVersionSlug.value != "" ==> r
  {
    externalVersionSlug.Some? && externalVersionSlug.value != ""
  }

  /** EXTERNAL when an external version slug is given, INTERNAL otherwise. */
  function ManagerFor(externalVersionSlug: Option<string>): (r: VersionManager)
    ensures r == External <==> IsGiven(externalVersionSlug)
    ensures externalVersionSlug.None? || externalVersionSlug == Some("") ==> r == Internal
  {
    if IsGiven(externalVersionSlug) then External else Internal
  }

  /** `project.versions(manager=...).filter(slug=...).first()`; a `None` slug finds nothing. */
  function FindVersion(store: Store, project: Project, manager: VersionManager, slug: Option<string>): (r: Option<Version>)
    ensures r.Some? <==> slug.Some? && Version(project.slug, slug.value, manager) in store.versions
    ensures r.Some? ==> r.value in store.versions && r.value == Version(project.slug, slug.value, manager)
  {
    if slug.Some? && Version(project.slug, slug.value, manager) in store.versions
    then Some(Version(project.slug, slug.value, manager))
    else None
  }

  /** The project itself when the language is its own, else its translation in that language. */
  function ProjectForLanguage(store: Store, parent: Project, language: string): (r: Option<Project>)
    ensures parent.language == language ==> r == Some(parent)
    ensures parent.language != language ==>
      r == (if (parent.slug, language) in store.translations
            then Some(store.translations[(parent.slug, language)]) else None)
  {
    if parent.language == language then Some(parent)
    else if (parent.slug, language) in store.translations then Some(store.translations[(parent.slug, language)])
    else None
  }

  /** The child project mounted under `alias`, if any. */
  function SubprojectOf(store: Store, parent: Project, alias: string): (r: Option<Project>)
    ensures r.Some? <==> (parent.slug, alias) in store.subprojects
    ensures r.Some? ==> r.value == store.subprojects[(parent.slug, alias)]
  {
    if (parent.slug, alias) in store.subprojects then Some(store.subprojects[(parent.slug, alias)]) else None
  }

  /**
   * `_match_multiversion_project`: `/{lang}/{version}/{file}`. Once the
   * pattern matches, the result is a match or an error, never `NoMatch`.
   */
  function MatchMultiversionProject(store: Store, g: Grammar, parent: Project, path: string,
                                    externalVersionSlug: Option<string>): (r: MatchResult)
    ensures r.NoMatch? <==> ParseMultiversion(g, path).None?
    ensures r.Matched? ==> StartsWith(r.resolved.filename, "/")
  {
    match ParseMultiversion(g, path)
    case None => NoMatch
    case Some(m) =>
      var file := NormalizeFilename(m.file);
      var project := ProjectForLanguage(store, parent, m.language);
      if project.None? then
        Failed(TranslationNotFound(parent, m.language, file))
      else if IsGiven(externalVersionSlug) && Some(externalVersionSlug.value) != m.version then
        Failed(InvalidExternalVersion(project.value, m.version, externalVersionSlug.value))
      else
        var version := FindVersion(store, project.value, ManagerFor(externalVersionSlug), m.version);
        if version.None? then Failed(VersionNotFound(project.value, m.version, file))
        else Matched(Resolved(project.value, version.value, file))
  }

  /**
   * `_match_subproject`: `/projects/{alias}/{file}`. An unknown alias is
   * `NoMatch`; a known one resolves the file against the child, with
   * subprojects switched off.
   */
  function MatchSubproject(store: Store, g: Grammar, parent: Project, path: string,
                           externalVersionSlug: Option<string>): (r: MatchResult)
    ensures r.NoMatch? <==>
      (ParseSubproject(g, path).None? || SubprojectOf(store, parent, ParseSubproject(g, path).value.alias).None?)
    ensures r.Matched? ==> StartsWith(r.resolved.filename, "/")
    decreases 1, 1
  {
    match ParseSubproject(g, path)
    case None => NoMatch
    case Some(m) =>
      var file := NormalizeFilename(m.file);
      var child := SubprojectOf(store, parent, m.alias);
      if child.None? then NoMatch
      else
        var response := ResolvePath(store, g, child.value, file, false, externalVersionSlug);
        if response.Ok? then Matched(response.value) else Failed(response.error)
  }

  /**
   * `_match_single_version_project`: the whole path is the file, served
   * from the external version when one is given, else the default version.
   * Every path matches.
   */
  function MatchSingleVersionProject(store: Store, parent: Project, path: string,
                                     externalVersionSlug: Option<string>): (r: MatchResult)
    ensures !r.NoMatch?
    ensures r.Matched? ==> r.resolved.project == parent && r.resolved.filename == NormalizeFilename(Some(path))
    ensures r.Failed? ==> r.error.VersionNotFound? && r.error.project == parent
  {
    var file := NormalizeFilename(Some(path));
    var versionSlug := if IsGiven(externalVersionSlug) then externalVersionSlug.value else parent.defaultVersion;
    var version := FindVersion(store, parent, ManagerFor(externalVersionSlug), Some(versionSlug));
    if version.None? then Failed(VersionNotFound(parent, Some(versionSlug), file))
    else Matched(Resolved(parent, version.value, file))
  }

  /**
   * `_unresolve_path_with_parent_project`: multiversion (unless the project
   * is single-version), then subprojects (when `checkSubprojects`), then
   * single-version (when it is); a path none of them takes is an
   * `InvalidPathForVersionedProject` carrying the normalised path.
   */
  function ResolvePath(store: Store, g: Grammar, parent: Project, path: string,
                       checkSubprojects: bool, externalVersionSlug: Option<string>): (r: Result<Resolved>)
    ensures r.Ok? ==> StartsWith(r.value.filename, "/")
    decreases if checkSubprojects then 1 else 0, 2
  {
    var multiversion :=
      if !parent.singleVersion then MatchMultiversionProject(store, g, parent, path, externalVersionSlug)
      else NoMatch;
    if !multiversion.NoMatch? then Commit(multiversion)
    else
      var subproject :=
        if checkSubprojects then MatchSubproject(store, g, parent, path, externalVersionSlug)
        else NoMatch;
      if !subproject.NoMatch? then Commit(subproject)
      else
        var singleVersion :=
          if parent.singleVersion then MatchSingleVersionProject(store, parent, path, externalVersionSlug)
          else NoMatch;
        if !singleVersion.NoMatch? then Commit(singleVersion)
        else Err(InvalidPathForVersionedProject(parent, NormalizeFilename(Some(path))))
  }
}
