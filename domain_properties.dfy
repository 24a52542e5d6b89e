/**
 * What domain classification promises, stated on hosts built from their
 * parts: `{slug}.{public domain}`, `{project}--{version}.{external domain}`
 * and look-alike hosts that merely contain a configured domain.
 */
module DomainProperties {
  import opened Wrappers
  import opened Strings
  import opened UnresolverTypes
  import opened DomainClassifier

  /**
   * `{slug}.{public domain}` is the project `slug` reached through the public
   * domain, or `InvalidSubdomain` when there is no such project.
   */
  lemma PublicSubdomain(settings: Settings, store: Store, slug: string)
    requires '.' !in slug
    ensures var host := slug + "." + PublicDomainOf(settings);
      UnresolveDomain(settings, store, host)
        == if slug in store.projects then Ok(UnresolvedDomain(host, PublicDomain, store.projects[slug], None, None))
           else Err(InvalidSubdomain(host))
  {
    var pub := PublicDomainOf(settings);
    var host := slug + "." + pub;
    assert SplitHost(host) == (slug, pub) by {
      assert host == slug + ['.'] + pub;
      SplitFirstAt(slug, '.', pub);
    }
    RootDomainOccurs(host);
  }

  /**
   * A host in which the public domain occurs anywhere, but which is not a
   * single label in front of it, is refused as suspicious, whatever the
   * projects, custom domains and external domain are.
   */
  lemma PublicLookalikeIsSuspicious(settings: Settings, store: Store, domain: string, i: int)
    requires OccursAt(domain, PublicDomainOf(settings), i)
    requires SplitHost(domain).1 != PublicDomainOf(settings)
    ensures UnresolveDomain(settings, store, domain) == Err(SuspiciousHostname(domain))
  {
    ContainsAt(domain, PublicDomainOf(settings), i);
  }

  /** The bare public domain has no project label in front of it: suspicious. */
  lemma BarePublicDomainIsSuspicious(settings: Settings, store: Store)
    requires PublicDomainOf(settings) != ""
    ensures var pub := PublicDomainOf(settings);
      UnresolveDomain(settings, store, pub) == Err(SuspiciousHostname(pub))
  {
  }

  /**
   * `{project}--{version}.{external domain}`, cut at the LAST "--", is the
   * project reached through the external domain, carrying the version slug,
   * provided the public domain does not occur in the host.
   */
  lemma ExternalSubdomain(settings: Settings, store: Store, project: string, version: string)
    requires '.' !in project && '.' !in version
    requires forall j :: |project| < j ==> !OccursAt(project + "--" + version, "--", j)
    requires var host := project + "--" + version + "." + ExternalDomainOf(settings);
      forall i :: !OccursAt(host, PublicDomainOf(settings), i)
    ensures var host := project + "--" + version + "." + ExternalDomainOf(settings);
      UnresolveDomain(settings, store, host)
        == if project in store.projects
           then Ok(UnresolvedDomain(host, ExternalDomain, store.projects[project], None, Some(version)))
           else Err(InvalidSubdomain(host))
  {
    var ext := ExternalDomainOf(settings);
    var subdomain := project + "--" + version;
    var host := subdomain + "." + ext;
    assert SplitHost(host) == (subdomain, ext) by {
      assert '.' !in subdomain;
      assert host == subdomain + ['.'] + ext;
      SplitFirstAt(subdomain, '.', ext);
    }
    RootDomainOccurs(host);
    assert !Contains(host, PublicDomainOf(settings)) by {
      ContainsIff(host, PublicDomainOf(settings));
    }
    RSplitOnceAt(project, "--", version);
  }

  /** An external-domain host whose first label has no "--" does not name a version. */
  lemma ExternalWithoutSeparator(settings: Settings, store: Store, domain: string)
    requires SplitHost(domain).1 == ExternalDomainOf(settings)
    requires forall i :: !OccursAt(domain, PublicDomainOf(settings), i)
    requires forall j :: !OccursAt(SplitHost(domain).0, "--", j)
    ensures UnresolveDomain(settings, store, domain) == Err(InvalidExternalDomain(domain))
  {
    assert !Contains(domain, PublicDomainOf(settings)) by {
      ContainsIff(domain, PublicDomainOf(settings));
    }
    assert !Contains(SplitHost(domain).0, "--") by {
      ContainsIff(SplitHost(domain).0, "--");
    }
    UnsplitExternalHost(settings, store, domain);
  }

  /** `ExternalWithoutSeparator` once the occurrences are decided. */
  lemma UnsplitExternalHost(settings: Settings, store: Store, domain: string)
    requires SplitHost(domain).1 == ExternalDomainOf(settings)
    requires !Contains(domain, PublicDomainOf(settings))
    requires !Contains(SplitHost(domain).0, "--")
    ensures UnresolveDomain(settings, store, domain) == Err(InvalidExternalDomain(domain))
  {
    RootDomainOccurs(domain);
  }

  /** The root domain a host splits into occurs in that host. */
  lemma RootDomainOccurs(domain: string)
    ensures Contains(domain, SplitHost(domain).1)
  {
    var (subdomain, root) := SplitHost(domain);
    if '.' in domain {
      assert domain[|subdomain| + 1..|subdomain| + 1 + |root|] == root;
      ContainsAt(domain, root, |subdomain| + 1);
    } else {
      ContainsAt(domain, root, 0);
    }
  }

  /**
   * A host in which the external domain occurs, but not as the whole root
   * domain, is refused as suspicious once the public domain is absent.
   */
  lemma ExternalLookalikeIsSuspicious(settings: Settings, store: Store, domain: string, i: int)
    requires forall k :: !OccursAt(domain, PublicDomainOf(settings), k)
    requires OccursAt(domain, ExternalDomainOf(settings), i)
    requires SplitHost(domain).1 != ExternalDomainOf(settings)
    ensures UnresolveDomain(settings, store, domain) == Err(SuspiciousHostname(domain))
  {
    ContainsIff(domain, PublicDomainOf(settings));
    ContainsAt(domain, ExternalDomainOf(settings), i);
  }

  /**
   * A host that contains neither configured domain is looked up among the
   * custom domains: the record and its project, or `InvalidCustomDomain`.
   */
  lemma CustomDomainLookup(settings: Settings, store: Store, domain: string)
    requires forall i :: !OccursAt(domain, PublicDomainOf(settings), i)
    requires forall i :: !OccursAt(domain, ExternalDomainOf(settings), i)
    ensures UnresolveDomain(settings, store, domain)
         == if domain in store.domains
            then Ok(UnresolvedDomain(domain, CustomDomain, store.domains[domain].project, Some(store.domains[domain]), None))
            else Err(InvalidCustomDomain(domain))
  {
    ContainsIff(domain, PublicDomainOf(settings));
    ContainsIff(domain, ExternalDomainOf(settings));
  }

  /** The header slug is compared case-insensitively: lower-casing it changes nothing. */
  lemma HeaderSlugIsCaseInsensitive(settings: Settings, store: Store, requestHost: string, header: string)
    ensures UnresolveDomainFromRequest(settings, store, requestHost, Some(header))
         == UnresolveDomainFromRequest(settings, store, requestHost, Some(Lower(header)))
  {
    LowerIsLower(header);
    LowerOfLower(Lower(header));
  }
}
