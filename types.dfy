/**
 * The values the unresolver consumes and produces: the read-only records it
 * looks up (projects, versions, custom domains), the two result records
 * (`UnresolvedDomain`, `UnresolvedUrl`) and its error taxonomy.
 */
module UnresolverTypes {
  import opened Wrappers

  /** A project as far as the unresolver reads it. */
  datatype Project = Project(
    slug: string,
    language: string,
    singleVersion: bool,
    defaultVersion: string)

  /** The two managers that partition a project's versions. */
  datatype VersionManager = Internal | External

  /** A version belongs to one project and has a slug unique within its manager. */
  datatype Version = Version(projectSlug: string, slug: string, manager: VersionManager)

  /** A custom hostname registered to a project. */
  datatype Domain = Domain(domain: string, project: Project)

  /**
   * A snapshot of every lookup the unresolver makes. Each query the source
   * sends to the database is a read of one of these fields.
   */
  datatype Store = Store(
    // Project.objects.get(slug=...)
    projects: map<string, Project>,
    // slugs of the projects that have the RESOLVE_PROJECT_FROM_HEADER feature
    headerEnabled: set<string>,
    // (project slug, language) -> the first translation in that language
    translations: map<(string, string), Project>,
    // (parent slug, alias) -> the child of that subproject relationship
    subprojects: map<(string, string), Project>,
    // every version of every project, in either manager
    versions: set<Version>,
    // Domain.objects.filter(domain=...)
    domains: map<string, Domain>)

  /** Where an `UnresolvedDomain` was resolved from. */
  datatype DomainSourceType = CustomDomain | PublicDomain | ExternalDomain | HttpHeader

  /** The project that owns a host, and how the host led to it. */
  datatype UnresolvedDomain = UnresolvedDomain(
    sourceDomain: string,
    source: DomainSourceType,
    project: Project,
    domain: Option<Domain>,
    externalVersionSlug: Option<string>)
  {
    // Each source excludes the other three.
    predicate IsFromCustomDomain(): (r: bool)
      ensures r ==> !source.PublicDomain? && !source.ExternalDomain? && !source.HttpHeader?
      ensures !r ==> source.PublicDomain? || source.ExternalDomain? || source.HttpHeader?
    {
      source == CustomDomain
    }

    predicate IsFromPublicDomain(): (r: bool)
      ensures r ==> !source.CustomDomain? && !source.ExternalDomain? && !source.HttpHeader?
      ensures !r ==> source.CustomDomain? || source.ExternalDomain? || source.HttpHeader?
    {
      source == PublicDomain
    }

    predicate IsFromHttpHeader(): (r: bool)
      ensures r ==> !source.CustomDomain? && !source.PublicDomain? && !source.ExternalDomain?
      ensures !r ==> source.CustomDomain? || source.PublicDomain? || source.ExternalDomain?
    {
      source == HttpHeader
    }

    predicate IsFromExternalDomain(): (r: bool)
      ensures r ==> !source.CustomDomain? && !source.PublicDomain? && !source.HttpHeader?
      ensures !r ==> source.CustomDomain? || source.PublicDomain? || source.HttpHeader?
    {
      source == ExternalDomain
    }

    /**
     * A custom-domain record is present exactly for the custom source and
     * then owns the project; an external version slug exactly for the
     * external source.
     */
    predicate Valid(): (r: bool)
      ensures r && IsFromCustomDomain() ==> domain.Some? && domain.value.project == project
      ensures r && !IsFromCustomDomain() ==> domain.None?
      ensures r ==> (externalVersionSlug.Some? <==> IsFromExternalDomain())
    {
      && (domain.Some? <==> IsFromCustomDomain())
      && (domain.Some? ==> project == domain.value.project)
      && (externalVersionSlug.Some? <==> IsFromExternalDomain())
    }
  }

  /** The parts of a parsed URL the unresolver reads. */
  datatype ParsedUrl = ParsedUrl(netloc: string, path: string)

  /** The parts of an unresolved URL. */
  datatype UnresolvedUrl = UnresolvedUrl(
    // the project that owns the domain
    parentProject: Project,
    // the project the docs are served from (a translation or subproject, or the parent)
    project: Project,
    version: Version,
    filename: string,
    parsedUrl: ParsedUrl,
    domain: Option<Domain>,
    external: bool)

  /**
   * The exceptions the unresolver raises. The first four are the source's
   * `DomainError`s and carry the offending domain.
   */
  datatype UnresolverError =
    | SuspiciousHostname(domain: string)
    | InvalidSubdomain(domain: string)
    | InvalidExternalDomain(domain: string)
    | InvalidCustomDomain(domain: string)
    | InvalidXRTDSlugHeader
    | VersionNotFound(project: Project, versionSlug: Option<string>, filename: string)
    | TranslationNotFound(project: Project, language: string, filename: string)
    | InvalidPathForVersionedProject(project: Project, path: string)
    | InvalidExternalVersion(project: Project, versionSlug: Option<string>, externalVersionSlug: string)
  {
    predicate IsDomainError() {
      SuspiciousHostname? || InvalidSubdomain? || InvalidExternalDomain? || InvalidCustomDomain?
    }
  }

  /** A value, or the exception raised instead of returning it. */
  datatype Result<+T> = Ok(value: T) | Err(error: UnresolverError)
}
