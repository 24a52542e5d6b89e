# Read the Docs unresolver, modelled in Dafny

This project models the unresolver of Read the Docs
(`readthedocs/core/unresolver.py`). Given the host and path of a request,
the unresolver finds the project, version and file the URL was built for.
It works in two stages.

- **Domain classification.** The host is lower-cased and its port is
  dropped. It is then recognised in this order:
  - as `{project}.{public domain}`;
  - as `{project}--{version}.{external domain}`, a pull-request preview;
  - as a registered custom domain.

  An `X-RTD-Slug` header can name the project instead. Each way of failing
  raises its own error.
- **Path resolution.** Three matchers run in a fixed order:
  - multiversion: `/{language}/{version}/{file}`;
  - subproject: `/projects/{alias}/{file}`;
  - single-version: the whole path is the file.

  The multiversion and single-version matchers commit once their pattern
  fits: they either return or raise. The subproject matcher commits only
  for a known alias; for an unknown one it passes the path on to the next
  matcher. For a known alias it resolves the rest of the path against the
  child with subprojects switched off, so nesting stops one level down. The result
  finally gets `index.html` appended when it names a directory.

The model is purely functional, as the source is. Each method of the class
that can raise becomes a function that returns `Result<T>` (a value or one
of the unresolver's nine errors). Each matcher returns
`NoMatch | Matched | Failed`. The helpers that cannot raise
(`get_domain_from_host`, `_normalize_filename`, the host split) return
plain values.

Files:
- `wrappers.dfy`: `Option`.
- `strings.dfy`: the Python string operations the source relies on:
  - ASCII `lower()`;
  - `split(sep, maxsplit=1)`;
  - `rsplit("--", maxsplit=1)`;
  - `in` as a substring test.
- `types.dfy`: the entities, the result records, the errors, and the store
  of lookups.
- `patterns.dfy`: the two path patterns, as a segment grammar with a
  parser that is proved sound and complete.
- `paths.dfy`: the matchers and the recursive resolver.
- `domains.dfy`: host classification and the header override.
- `unresolver.dfy`: `_unresolve`, `unresolve_url` and `unresolve_path`.
- `path_properties.dfy`, `domain_properties.dfy`,
  `unresolver_properties.dfy`: the lemmas, including round trips from a
  URL built for a project, version and file back to them.

Two behaviours of the code are stated here exactly as the code has them:

- **`/projects/sub/projects/sub2/`.** The docstring of
  `_unresolve_path_with_parent_project`
  (readthedocs/core/unresolver.py:376-377) says subprojects of subprojects
  are not supported. That could be read as "such a path is rejected". What
  the code does depends on the parent:
  - If the parent is multiversion and the path fits its multiversion
    pattern (which needs `projects` to be a language slug), that matcher
    commits to the language `projects` and the child is never reached.
  - If the parent is single-version, or `projects` is not a language slug,
    the path is resolved in the child `sub` as `/projects/sub2/`, with
    subprojects switched off. A multiversion child rejects it with
    `InvalidPathForVersionedProject` when `projects` is not a language
    slug; when it is one, the child's own multiversion matcher may take
    it. A single-version child that finds its version serves
    `/projects/sub2/` as a file of its own.

  `PathProperties.MultiversionCommits` gives the outcome of the first
  case and `PathProperties.NestedSubprojectStopsAtChild` states the
  second.
- **An empty external slug.** The host `{project}--.{external domain}`
  yields the external version slug `""`. That is false in Python, so
  internal versions are served
  (`PathProperties.EmptyExternalSlugIsIgnored`).

## Model

| member | source | states |
|---|---|---|
| Strings.Lower | readthedocs/core/unresolver.py:426 | `lower()` keeps the length, lower-cases each character, and yields a lower-case string |
| Strings.LowerOfLower | readthedocs/core/unresolver.py:520 | lower-casing a lower-case string changes nothing |
| Strings.ContainsIff | readthedocs/core/unresolver.py:443 | the left-to-right scan behind `x in domain` holds exactly when the needle occurs at some index, in both directions |
| Strings.Contains | readthedocs/core/unresolver.py:443 | `needle in hay`: the empty needle is always in; a needle found is no longer than the hay |
| Strings.SplitFirst | readthedocs/core/unresolver.py:440-441 | `split(sep, maxsplit=1)`: the head has no separator; there is a tail exactly when the separator occurs; head, separator and tail rebuild the input |
| Strings.SplitFirstAt | readthedocs/core/unresolver.py:440 | a string built from a separator-free head, the separator and a tail splits back into that head and tail |
| Strings.RSplitOnce | readthedocs/core/unresolver.py:463 | `rsplit("--", 1)` has two parts exactly when "--" occurs; the parts rebuild the input; no "--" starts after the head |
| Strings.RSplitOnceAt | readthedocs/core/unresolver.py:463 | a subdomain built as head + "--" + tail, with no later "--", splits back into head and tail |
| UnresolverTypes.UnresolvedDomain.IsFromCustomDomain | readthedocs/core/unresolver.py:114-116 | the custom-domain source, which excludes each of the other three |
| UnresolverTypes.UnresolvedDomain.IsFromPublicDomain | readthedocs/core/unresolver.py:118-120 | the public-domain source, which excludes each of the other three |
| UnresolverTypes.UnresolvedDomain.IsFromHttpHeader | readthedocs/core/unresolver.py:122-124 | the header source, which excludes each of the other three |
| UnresolverTypes.UnresolvedDomain.IsFromExternalDomain | readthedocs/core/unresolver.py:126-128 | the external-domain source, which excludes each of the other three |
| UnresolverTypes.UnresolvedDomain.Valid | readthedocs/core/unresolver.py:104-112 | the record's fields as `unresolve_domain` fills them: a `Domain` exactly for a custom domain, owning the project; an external version slug exactly for the external domain |
| PathPatterns.ParseMultiversion | readthedocs/core/unresolver.py:138-146 | a found match satisfies the multiversion pattern with the groups returned |
| PathPatterns.ParseMultiversionComplete | readthedocs/core/unresolver.py:138-146 | every path the pattern matches is found, with exactly the pattern's groups |
| PathPatterns.ParseMultiversionNone | readthedocs/core/unresolver.py:253-255 | the matcher reports no match exactly when no groups make the pattern match |
| PathPatterns.ProjectsIsNotALanguage | readthedocs/core/unresolver.py:140 | when `projects` is not a language slug, no `/projects/...` path matches the multiversion pattern |
| PathPatterns.ParseSubproject | readthedocs/core/unresolver.py:152-161 | a found match satisfies the subproject pattern with the groups returned |
| PathPatterns.ParseSubprojectComplete | readthedocs/core/unresolver.py:152-161 | every path the subproject pattern matches is found, with exactly its groups |
| PathPatterns.ParseSubprojectNone | readthedocs/core/unresolver.py:296-298 | no match is reported exactly when no groups make the subproject pattern match |
| PathResolver.NormalizeFilename | readthedocs/core/unresolver.py:233-239 | the result starts with "/"; `None` and "" give "/"; a name already starting with "/" is unchanged; any other name gets one leading "/" |
| PathResolver.NormalizeFilenameIdempotent | readthedocs/core/unresolver.py:233-239 | normalising twice is normalising once |
| PathResolver.IsGiven | readthedocs/core/unresolver.py:270 | Python truthiness of the external version slug: `None` and "" are not given; a slug is given exactly when it is non-empty |
| PathResolver.ManagerFor | readthedocs/core/unresolver.py:277 | the EXTERNAL manager exactly when the slug is given; `None` and "" select INTERNAL |
| PathResolver.SubprojectOf | readthedocs/core/unresolver.py:302-306 | a child is found exactly when the parent has a subproject relationship under that alias, and it is that relationship's child |
| PathResolver.FindVersion | readthedocs/core/unresolver.py:277-278 | a version is found exactly when one with that slug exists for that project in that manager; a `None` slug finds nothing |
| PathResolver.ProjectForLanguage | readthedocs/core/unresolver.py:261-264 | in its own language the parent serves itself; otherwise the translation in that language, if there is one |
| PathResolver.MatchMultiversionProject | readthedocs/core/unresolver.py:241-284 | no match exactly when the pattern does not match, so a matching pattern commits; a matched file starts with "/" |
| PathResolver.MatchSubproject | readthedocs/core/unresolver.py:286-318 | no match exactly when the pattern does not match or the alias is unknown; a matched file starts with "/" |
| PathResolver.MatchSingleVersionProject | readthedocs/core/unresolver.py:320-351 | always commits; a match is the parent with the whole path normalised as the file; a failure is `VersionNotFound` for the parent |
| PathResolver.ResolvePath | readthedocs/core/unresolver.py:353-417 | a resolved filename starts with "/" |
| PathProperties.MultiversionCommits | readthedocs/core/unresolver.py:253-284 | for a multiversion project, a path of the pattern's shape is decided by that matcher alone: `TranslationNotFound`, then `InvalidExternalVersion` when a given external slug differs, then the version from the manager the slug selects, or `VersionNotFound` |
| PathProperties.OwnLanguagePath | readthedocs/core/unresolver.py:261-284 | `/{own language}/{version}/{file}` is that version of the project itself, or the matching external-version or version-not-found error |
| PathProperties.NoMatcherApplies | readthedocs/core/unresolver.py:384-417 | a multiversion project with no pattern match and no known alias gives `InvalidPathForVersionedProject` with the normalised path |
| PathProperties.KnownAliasResolvesInChild | readthedocs/core/unresolver.py:296-318 | under a known alias the result is the child's resolution of the normalised rest, with subprojects off |
| PathProperties.SingleVersionServesWholePath | readthedocs/core/unresolver.py:320-351 | a single-version project serves any path not under a known alias as one file: the external version (EXTERNAL) when a slug is given, else the default version (INTERNAL), or `VersionNotFound` |
| PathProperties.ResolvedVersion | readthedocs/core/unresolver.py:270-351 | the version served exists and belongs to the serving project; it is EXTERNAL exactly when a slug is given, and then it is that very slug |
| PathProperties.ServedProjectIsNear | readthedocs/core/unresolver.py:307-316 | the serving project is the parent or its translation, or (with subprojects checked) a subproject or its translation; never a subproject of a subproject |
| PathProperties.NestedSubprojectStopsAtChild | readthedocs/core/unresolver.py:307-316 | `/projects/a/projects/b/` resolves in child `a` as `/projects/b/`; a multiversion child then rejects it when `projects` is not a language; a single-version child serves it as its own file |
| PathProperties.UncheckedIgnoresSubprojects | readthedocs/core/unresolver.py:353-417 | with subprojects off, two stores that agree on versions and translations resolve every path alike |
| PathProperties.EmptyExternalSlugIsIgnored | readthedocs/core/unresolver.py:270-277 | an empty external slug resolves exactly as no slug, through the subproject recursion too |
| DomainClassifier.GetDomainFromHost | readthedocs/core/unresolver.py:419-426 | the result has no ':', is lower-case, and is the lower-cased host up to its first ':' |
| DomainClassifier.GetDomainFromHostIdempotent | readthedocs/core/unresolver.py:419-426 | normalising a host twice is normalising it once |
| DomainClassifier.PublicDomainOf | readthedocs/core/unresolver.py:435 | the public domain is `get_domain_from_host` of the setting: lower-case, no ':', a prefix of the lower-cased setting |
| DomainClassifier.ExternalDomainOf | readthedocs/core/unresolver.py:436-438 | the external domain is `get_domain_from_host` of the setting: lower-case, no ':', a prefix of the lower-cased setting |
| DomainClassifier.SplitHost | readthedocs/core/unresolver.py:440-441 | the first label has no '.'; with a '.' the label, '.' and the root rebuild the host; without one the root is "" |
| DomainClassifier.ResolveProjectSlug | readthedocs/core/unresolver.py:498-503 | the project with that slug, or `InvalidSubdomain` for the domain exactly when there is none |
| DomainClassifier.UnresolveDomain | readthedocs/core/unresolver.py:428-496 | a result is consistent (a custom-domain record exactly for custom domains and owning the project; an external slug exactly for the external domain), is for this domain, and is not from the header; every error is a domain error naming this domain |
| DomainClassifier.HeaderSlug | readthedocs/core/unresolver.py:520 | the header slug is the header lower-cased (so lower-case and as long as the header); an absent header gives ""; an already lower-case header is unchanged |
| DomainClassifier.UnresolveDomainFromRequest | readthedocs/core/unresolver.py:505-542 | a non-empty lower-cased header succeeds exactly when the project exists and has the header feature, then with the header source; otherwise `InvalidXRTDSlugHeader` and the host is not consulted; an empty header classifies the host |
| DomainProperties.PublicSubdomain | readthedocs/core/unresolver.py:443-452 | `{slug}.{public domain}` is project `slug` from the public domain, or `InvalidSubdomain` |
| DomainProperties.PublicLookalikeIsSuspicious | readthedocs/core/unresolver.py:443-457 | the public domain anywhere in the host but not as its root gives `SuspiciousHostname` |
| DomainProperties.BarePublicDomainIsSuspicious | readthedocs/core/unresolver.py:443-457 | the bare public domain gives `SuspiciousHostname` |
| DomainProperties.ExternalSubdomain | readthedocs/core/unresolver.py:459-470 | `{project}--{version}.{external domain}` is the project from the external domain, carrying the version slug, or `InvalidSubdomain` |
| DomainProperties.ExternalWithoutSeparator | readthedocs/core/unresolver.py:461-475 | an external-domain host whose first label has no "--" gives `InvalidExternalDomain` |
| DomainProperties.ExternalLookalikeIsSuspicious | readthedocs/core/unresolver.py:459-480 | the external domain anywhere but as the root, with the public domain absent, gives `SuspiciousHostname` |
| DomainProperties.CustomDomainLookup | readthedocs/core/unresolver.py:482-496 | a host with neither configured domain is the custom-domain record and its project, or `InvalidCustomDomain` |
| DomainProperties.HeaderSlugIsCaseInsensitive | readthedocs/core/unresolver.py:520 | the header is compared case-insensitively |
| Unresolver.Unresolve | readthedocs/core/unresolver.py:207-231 | path errors propagate unchanged; the parent is the domain's project; project and version are the resolved ones; the parsed URL and the domain record are copied; `external` holds exactly for the external domain; with `index.html` asked for, the filename never ends in "/"; without it, the filename is the resolved one |
| Unresolver.UnresolveUrl | readthedocs/core/unresolver.py:163-181 | domain errors propagate; the parsed URL is the given host and path; with a custom domain, the record is the host's and owns the parent project, and the URL is not external |
| Unresolver.UnresolvePath | readthedocs/core/unresolver.py:183-205 | the parsed URL has an empty host and the given path; the parent is the domain's project; a domain record is present exactly for a custom domain |
| UnresolverProperties.IndexHtmlOnlyForDirectories | readthedocs/core/unresolver.py:220-221 | appending `index.html` changes only the filename, and only of a directory |
| UnresolverProperties.UrlAgreesWithPath | readthedocs/core/unresolver.py:163-205 | `unresolve_url` is `unresolve_path` on the classified domain, except for the parsed URL |
| UnresolverProperties.PublicMultiversionRoundTrip | readthedocs/core/unresolver.py:163-181 | `{slug}.{public domain}/{lang}/{version}/{file}` for an existing internal version unresolves to that project, version and file |
| UnresolverProperties.ExternalPreviewRoundTrip | readthedocs/core/unresolver.py:270-282 | a preview URL serves only its own build: another version in the path gives `InvalidExternalVersion`; its own gives the EXTERNAL version, or `VersionNotFound` |
| UnresolverProperties.SingleVersionRoundTrip | readthedocs/core/unresolver.py:320-351 | on a single-version project a path not under a known alias is that file of the default version |
| UnresolverProperties.SingleVersionRootIsIndex | readthedocs/core/unresolver.py:220-221 | the root ("" or "/") of a single-version project is the default version's `/index.html` |
| UnresolverProperties.SubprojectRoundTrip | readthedocs/core/unresolver.py:286-318 | `/projects/{alias}/{lang}/{version}/{file}` under a known alias is served by the child, with the domain's project as the parent |

## Left out

- Database queries are not modelled as queries. A `Store` value holds what
  they would return:
  - projects by slug;
  - the slugs with the `RESOLVE_PROJECT_FROM_HEADER` feature;
  - the first translation per language;
  - subproject children per alias;
  - versions with their manager;
  - custom domains.

  Which translation is "first" among several in the same language is
  fixed by that map.
- `settings.PUBLIC_DOMAIN` and `settings.RTD_EXTERNAL_VERSION_DOMAIN` are
  the two fields of a `Settings` parameter.
- The regex character classes come from `readthedocs/constants.py`, which
  is not part of this model.
  - They are opaque predicates of a `Grammar`.
  - Slugs are additionally taken to be non-empty and free of '/', so each
    match is unique.
  - Python's `$` also matching before a trailing newline is not modelled.
- `urlparse` and `ParseResult` are reduced to the host (`netloc`) and the
  path. `request.get_host()` and the request headers are a host string and
  an optional header value.
- `str.lower()` is modelled for ASCII letters only. Unicode case mapping is
  not modelled.
- Logging calls and the module-level `unresolver` singleton and `unresolve`
  alias (readthedocs/core/unresolver.py:545-546) have no behaviour to model.
- Exceptions are values of `Result`. Raising and catching are not modelled
  beyond that.
