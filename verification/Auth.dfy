/** From the groups of an identity token to the tenants its bearer may enter. */
module Auth {
  import opened Common
  import opened Tenancy

  /** The organisation of `org:team`; a group without a colon is an organisation itself. */
  function OrgFromGroup(group: string): (org: string)
    ensures ':' !in org
    ensures org <= group
    ensures org == group || (|org| < |group| && group[|org|] == ':')
  {
    if group == "" || group[0] == ':' then "" else [group[0]] + OrgFromGroup(group[1..])
  }

  /** The slug one group opens, if a tenant trusts the connector for its organisation. */
  function SlugOpenedBy(registry: TenantRegistry, connectorId: string, group: string): Option<string> {
    match FindForConnectorAndOrg(registry, connectorId, OrgFromGroup(group))
    case Some(tenant) => Some(tenant.slug)
    case None => None
  }

  ghost predicate FirstOpenedAt(
      registry: TenantRegistry, connectorId: string, groups: seq<string>, slug: string, g: nat) {
    && g < |groups|
    && SlugOpenedBy(registry, connectorId, groups[g]) == Some(slug)
    && forall k :: 0 <= k < g ==> SlugOpenedBy(registry, connectorId, groups[k]) != Some(slug)
  }

  /** The opened slugs, each once, in the order of the first group that opens it. */
  ghost predicate InFirstMatchOrder(
      registry: TenantRegistry, connectorId: string, groups: seq<string>, slugs: seq<string>, first: seq<nat>) {
    && |first| == |slugs|
    && (forall i :: 0 <= i < |slugs| ==> FirstOpenedAt(registry, connectorId, groups, slugs[i], first[i]))
    && forall i, j :: 0 <= i < j < |first| ==> first[i] < first[j]
  }

  ghost predicate AllOpened(registry: TenantRegistry, connectorId: string, groups: seq<string>, slugs: seq<string>) {
    forall g :: 0 <= g < |groups| ==>
      match SlugOpenedBy(registry, connectorId, groups[g]) case Some(slug) => slug in slugs case None => true
  }

  method ResolveAuthorizedSlugs(registry: TenantRegistry, connector: Option<string>, groups: seq<string>)
    returns (authorized: seq<string>)
    ensures connector.None? ==> authorized == []
    ensures connector.Some? ==>
      && AllOpened(registry, connector.value, groups, authorized)
      && exists first :: InFirstMatchOrder(registry, connector.value, groups, authorized, first)
  {
    if connector.None? {
      return [];
    }
    authorized := [];
    var connectorId := connector.value;
    var seen: set<string> := {};
    ghost var first: seq<nat> := [];
    for g := 0 to |groups|
      invariant seen == Elements(authorized)
      invariant AllOpened(registry, connectorId, groups[..g], authorized)
      invariant InFirstMatchOrder(registry, connectorId, groups, authorized, first)
      invariant forall i :: 0 <= i < |first| ==> first[i] < g
    {
      assert groups[..g + 1] == groups[..g] + [groups[g]];
      var tenant := FindForConnectorAndOrg(registry, connectorId, OrgFromGroup(groups[g]));
      if tenant.Some? && tenant.value.slug !in seen {
        var slug := tenant.value.slug;
        forall k | 0 <= k < g
          ensures SlugOpenedBy(registry, connectorId, groups[k]) != Some(slug)
        {
          assert groups[..g][k] == groups[k];
        }
        ElementsAppend(authorized, slug);
        seen := seen + {slug};
        authorized := authorized + [slug];
        first := first + [g];
      }
    }
    assert groups[..|groups|] == groups;
  }

  /** Against the configured tenants: exactly the slugs of those that trust the connector for
      one of the listed organisations, without repetition. */
  lemma AuthorizedSlugsAreTrusted(
      registry: TenantRegistry, tenants: seq<TenantConfig>, connectorId: string,
      groups: seq<string>, slugs: seq<string>, first: seq<nat>)
    requires Stands(registry, tenants)
    requires AllOpened(registry, connectorId, groups, slugs)
    requires InFirstMatchOrder(registry, connectorId, groups, slugs, first)
    ensures Distinct(slugs)
    ensures forall slug :: slug in slugs <==>
      exists t, g :: t in tenants && g in groups && t.slug == slug && Trusts(t, connectorId, OrgFromGroup(g))
  {
    forall i, j | 0 <= i < j < |slugs|
      ensures slugs[i] != slugs[j]
    {
      assert FirstOpenedAt(registry, connectorId, groups, slugs[j], first[j]);
    }
    forall slug | slug in slugs
      ensures exists t, g :: t in tenants && g in groups && t.slug == slug && Trusts(t, connectorId, OrgFromGroup(g))
    {
      var i :| 0 <= i < |slugs| && slugs[i] == slug;
      var g := groups[first[i]];
      var t := FindForConnectorAndOrg(registry, connectorId, OrgFromGroup(g)).value;
      LookupsScanTheList(registry, tenants, t);
      assert t in tenants && g in groups;
    }
    forall t, g | t in tenants && g in groups && Trusts(t, connectorId, OrgFromGroup(g))
      ensures t.slug in slugs
    {
      LookupsScanTheList(registry, tenants, t);
      var k :| 0 <= k < |groups| && groups[k] == g;
      assert SlugOpenedBy(registry, connectorId, groups[k]) == Some(t.slug);
    }
  }
}
