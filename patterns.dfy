/**
 * The two path regular expressions of the unresolver, as a grammar over
 * '/'-separated segments.
 *
 * multiversion_pattern:  ^/{lang}(/({version}(/{file})?)?)?$
 * subproject_pattern:    ^/projects/{project}+(/{file})?$
 *
 * The character classes behind `{lang}`, `{version}`, `{project}+` and
 * `{file}` are configuration of the host system; a `Grammar` holds them as
 * predicates on whole strings. A slug is also required not to contain '/':
 * that holds for the system's classes and makes each match unique, so a
 * parser can decide it by cutting at '/'.
 */
module PathPatterns {
  import opened Wrappers
  import opened Strings

  datatype Grammar = Grammar(
    langSlug: string -> bool,
    versionSlug: string -> bool,
    projectSlug: string -> bool,
    filename: string -> bool)

  /** A non-empty slug of a class, which never spans a '/'. */
  predicate IsSegment(s: string, cls: string -> bool) {
    |s| > 0 && '/' !in s && cls(s)
  }

  /** The named groups of a multiversion match; `None` is a group that did not take part. */
  datatype MultiversionMatch = MultiversionMatch(
    language: string,
    version: Option<string>,
    file: Option<string>)

  /** The named groups of a subproject match. */
  datatype SubprojectMatch = SubprojectMatch(alias: string, file: Option<string>)

  /** `multiversion_pattern` matches `path` with groups `m`. */
  predicate IsMultiversionPath(g: Grammar, path: string, m: MultiversionMatch) {
    && IsSegment(m.language, g.langSlug)
    && match m.version
       case None =>
         m.file.None? && (path == "/" + m.language || path == "/" + m.language + "/")
       case Some(v) =>
         && IsSegment(v, g.versionSlug)
         && match m.file
            case None => path == "/" + m.language + "/" + v
            case Some(f) => g.filename(f) && path == "/" + m.language + "/" + v + "/" + f
  }

  /** `subproject_pattern` matches `path` with groups `m`. */
  predicate IsSubprojectPath(g: Grammar, path: string, m: SubprojectMatch) {
    && IsSegment(m.alias, g.projectSlug)
    && match m.file
       case None => path == "/projects/" + m.alias
       case Some(f) => g.filename(f) && path == "/projects/" + m.alias + "/" + f
  }

  /** `multiversion_pattern.match(path)`. */
  function ParseMultiversion(g: Grammar, path: string): (r: Option<MultiversionMatch>)
    ensures r.Some? ==> IsMultiversionPath(g, path, r.value)
  {
    if |path| == 0 || path[0] != '/' then None
    else
      var (language, afterLanguage) := SplitFirst(path[1..], '/');
      if !IsSegment(language, g.langSlug) then None
      else if afterLanguage.None? then
        assert path == "/" + language;
        Some(MultiversionMatch(language, None, None))
      else
        assert path == "/" + language + "/" + afterLanguage.value;
        ParseVersionAndFile(g, language, afterLanguage.value)
  }

  /** The rest of a multiversion match after `/{lang}/`: nothing, or `{version}(/{file})?`. */
  function ParseVersionAndFile(g: Grammar, language: string, tail: string): (r: Option<MultiversionMatch>)
    requires IsSegment(language, g.langSlug)
    ensures r.Some? ==> IsMultiversionPath(g, "/" + language + "/" + tail, r.value)
  {
    if tail == "" then Some(MultiversionMatch(language, None, None))
    else
      var (version, afterVersion) := SplitFirst(tail, '/');
      if !IsSegment(version, g.versionSlug) then None
      else if afterVersion.None? then Some(MultiversionMatch(language, Some(version), None))
      else if !g.filename(afterVersion.value) then None
      else
        assert "/" + language + "/" + tail == "/" + language + "/" + version + "/" + afterVersion.value;
        Some(MultiversionMatch(language, Some(version), afterVersion))
  }

  /** Every match of the pattern is found, with the groups the pattern assigns. */
  lemma ParseMultiversionComplete(g: Grammar, path: string, m: MultiversionMatch)
    requires IsMultiversionPath(g, path, m)
    ensures ParseMultiversion(g, path) == Some(m)
  {
    var lang := m.language;
    match m.version {
      case None =>
        if path == "/" + lang {
          assert path[1..] == lang;
        } else {
          assert path[1..] == lang + ['/'] + "";
          SplitFirstAt(lang, '/', "");
        }
      case Some(v) =>
        match m.file {
          case None =>
            assert path[1..] == lang + ['/'] + v;
            SplitFirstAt(lang, '/', v);
          case Some(f) =>
            var tail := v + "/" + f;
            assert path == "/" + (lang + ['/'] + tail);
            assert path[1..] == lang + ['/'] + tail;
            SplitFirstAt(lang, '/', v + "/" + f);
            SplitFirstAt(v, '/', f);
        }
    }
  }

  /** The pattern matches `path` for no groups at all. */
  lemma ParseMultiversionNone(g: Grammar, path: string)
    ensures ParseMultiversion(g, path).None? <==> forall m :: !IsMultiversionPath(g, path, m)
  {
    if m :| IsMultiversionPath(g, path, m) {
      ParseMultiversionComplete(g, path, m);
    }
  }

  /**
   * When `projects` is not a language slug, the multiversion pattern takes
   * no path under `/projects/`.
   */
  lemma ProjectsIsNotALanguage(g: Grammar, rest: string)
    requires !g.langSlug("projects")
    ensures forall m :: !IsMultiversionPath(g, "/projects/" + rest, m)
  {
    var path := "/projects/" + rest;
    assert path[1..] == "projects" + ['/'] + rest;
    SplitFirstAt("projects", '/', rest);
    ParseMultiversionNone(g, path);
  }

  /** `subproject_pattern.match(path)`. */
  function ParseSubproject(g: Grammar, path: string): (r: Option<SubprojectMatch>)
    ensures r.Some? ==> IsSubprojectPath(g, path, r.value)
  {
    if !StartsWith(path, "/projects/") then None
    else
      var (alias, afterAlias) := SplitFirst(path[10..], '/');
      if !IsSegment(alias, g.projectSlug) then None
      else if afterAlias.Some? && !g.filename(afterAlias.value) then None
      else
        assert path == "/projects/" + path[10..];
        Some(SubprojectMatch(alias, afterAlias))
  }

  /** Every match of the pattern is found, with the groups the pattern assigns. */
  lemma ParseSubprojectComplete(g: Grammar, path: string, m: SubprojectMatch)
    requires IsSubprojectPath(g, path, m)
    ensures ParseSubproject(g, path) == Some(m)
  {
    assert path[..10] == "/projects/";
    match m.file {
      case None =>
        assert path[10..] == m.alias;
      case Some(f) =>
        assert path[10..] == m.alias + ['/'] + f;
        SplitFirstAt(m.alias, '/', f);
    }
  }

  /** The pattern matches `path` for no groups at all. */
  lemma ParseSubprojectNone(g: Grammar, path: string)
    ensures ParseSubproject(g, path).None? <==> forall m :: !IsSubprojectPath(g, path, m)
  {
    if m :| IsSubprojectPath(g, path, m) {
      ParseSubprojectComplete(g, path, m);
    }
  }
}
