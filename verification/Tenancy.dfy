/** The tenancy document: its validation and the lookup tables built from it. The text of a
    validation error is not modelled. */
module Tenancy {
  import opened Common
  import opened Pipelines

  const SLUG_MAX_LEN: nat := 63
  const APP_ID_MAX_LEN: nat := 63
  const ORG_NAME_MAX_LEN: nat := 39

  datatype GithubAppConfig = GithubAppConfig(
    id: string, appId: string, webhookSecret: string, privateKey: string)

  datatype TenantConfig = TenantConfig(
    slug: string, connectorIds: seq<string>, orgName: string, appRef: string)

  datatype TenancyError = Validation

  datatype TenantRegistry = TenantRegistry(
    bySlug: map<string, TenantConfig>,
    byConnectorAndOrg: map<(string, string), TenantConfig>,
    byAppAndOrg: map<(string, string), TenantConfig>)

  // ---------- what a valid entry is ----------

  /** Unicode white space. */
  predicate Whitespace(c: char) {
    var u := c as int;
    || 9 <= u <= 13 || u == 0x20 || u == 0x85 || u == 0xA0 || u == 0x1680
    || 0x2000 <= u <= 0x200A || u == 0x2028 || u == 0x2029 || u == 0x202F || u == 0x205F || u == 0x3000
  }

  predicate Blank(s: string) {
    forall i :: 0 <= i < |s| ==> Whitespace(s[i])
  }

  predicate OrgAlnum(c: char) {
    LabelAlnum(c) || 'A' <= c <= 'Z'
  }

  predicate SlugText(s: string, maxLen: nat) {
    && 0 < |s| <= maxLen
    && LabelAlnum(s[0])
    && forall i :: 0 <= i < |s| ==> LabelAlnum(s[i]) || s[i] == '-'
  }

  predicate OrgText(s: string) {
    && 0 < |s| <= ORG_NAME_MAX_LEN
    && OrgAlnum(s[0])
    && forall i :: 0 <= i < |s| ==> OrgAlnum(s[i]) || s[i] == '-'
  }

  function DigitsValue(s: string): nat
    requires Digits(s)
  {
    if s == "" then 0 else 10 * DigitsValue(s[..|s| - 1]) + (s[|s| - 1] as int - '0' as int)
  }

  /** What parses as an unsigned 64-bit integer: digits, perhaps after a plus, in range. */
  predicate ParsesAsU64(s: string) {
    var digits := if s != "" && s[0] == '+' then s[1..] else s;
    digits != "" && Digits(digits) && DigitsValue(digits) < 0x1_0000_0000_0000_0000
  }

  predicate ValidApp(app: GithubAppConfig) {
    && SlugText(app.id, APP_ID_MAX_LEN)
    && ParsesAsU64(app.appId)
    && app.webhookSecret != ""
    && !Blank(app.privateKey)
  }

  predicate ValidConnectorIds(ids: seq<string>) {
    && ids != []
    && forall i :: 0 <= i < |ids| ==> !Blank(ids[i])
  }

  predicate ValidTenant(tenant: TenantConfig, appIds: set<string>) {
    && SlugText(tenant.slug, SLUG_MAX_LEN)
    && ValidConnectorIds(tenant.connectorIds)
    && OrgText(tenant.orgName)
    && tenant.appRef in appIds
  }

  method ValidateDnsLabel(value: string, maxLen: nat) returns (valid: bool)
    ensures valid <==> SlugText(value, maxLen)
    ensures valid <==>
      && 0 < |value| <= maxLen && value[0] != '-'
      && forall i :: 0 <= i < |value| ==> 'a' <= value[i] <= 'z' || '0' <= value[i] <= '9' || value[i] == '-'
  {
    if value == "" || |value| > maxLen {
      return false;
    }
    for i := 0 to |value|
      invariant i > 0 ==> LabelAlnum(value[0])
      invariant forall k :: 0 <= k < i ==> LabelAlnum(value[k]) || value[k] == '-'
    {
      if i == 0 {
        if !LabelAlnum(value[i]) {
          return false;
        }
      } else if !LabelAlnum(value[i]) && value[i] != '-' {
        return false;
      }
    }
    return true;
  }

  method ValidateOrgName(org: string) returns (valid: bool)
    ensures valid <==> OrgText(org)
    ensures valid <==>
      && 0 < |org| <= 39 && org[0] != '-'
      && forall i :: 0 <= i < |org| ==>
           'a' <= org[i] <= 'z' || 'A' <= org[i] <= 'Z' || '0' <= org[i] <= '9' || org[i] == '-'
  {
    if org == "" || |org| > ORG_NAME_MAX_LEN {
      return false;
    }
    for i := 0 to |org|
      invariant i > 0 ==> OrgAlnum(org[0])
      invariant forall k :: 0 <= k < i ==> OrgAlnum(org[k]) || org[k] == '-'
    {
      if i == 0 {
        if !OrgAlnum(org[i]) {
          return false;
        }
      } else if !OrgAlnum(org[i]) && org[i] != '-' {
        return false;
      }
    }
    return true;
  }

  method ValidateConnectorIds(ids: seq<string>) returns (valid: bool)
    ensures valid <==> ValidConnectorIds(ids)
  {
    if ids == [] {
      return false;
    }
    for i := 0 to |ids|
      invariant forall k :: 0 <= k < i ==> !Blank(ids[k])
    {
      if Blank(ids[i]) {
        return false;
      }
    }
    return true;
  }

  method ValidateAppEntry(app: GithubAppConfig) returns (valid: bool)
    ensures valid <==> ValidApp(app)
    ensures valid <==>
      SlugText(app.id, 63) && ParsesAsU64(app.appId) && app.webhookSecret != "" && !Blank(app.privateKey)
  {
    var idValid := ValidateDnsLabel(app.id, APP_ID_MAX_LEN);
    if !idValid {
      return false;
    }
    if !ParsesAsU64(app.appId) {
      return false;
    }
    if app.webhookSecret == "" {
      return false;
    }
    return !Blank(app.privateKey);
  }

  method ValidateTenant(tenant: TenantConfig, apps: map<string, GithubAppConfig>) returns (valid: bool)
    ensures valid <==> ValidTenant(tenant, apps.Keys)
    ensures valid <==>
      && SlugText(tenant.slug, 63) && OrgText(tenant.orgName) && tenant.appRef in apps
      && tenant.connectorIds != [] && forall id :: id in tenant.connectorIds ==> !Blank(id)
  {
    var slugValid := ValidateDnsLabel(tenant.slug, SLUG_MAX_LEN);
    if !slugValid {
      return false;
    }
    var connectorsValid := ValidateConnectorIds(tenant.connectorIds);
    if !connectorsValid {
      return false;
    }
    var orgValid := ValidateOrgName(tenant.orgName);
    if !orgValid {
      return false;
    }
    return tenant.appRef in apps;
  }

  // ---------- a table against the list it stands for ----------

  /** Scanning `entries` for a key finds what `index` holds, and nothing else. */
  ghost predicate Indexes<K, V>(index: map<K, V>, entries: seq<(K, V)>) {
    && (forall i :: 0 <= i < |entries| ==> entries[i].0 in index && index[entries[i].0] == entries[i].1)
    && (forall k :: k in index ==> (k, index[k]) in entries)
  }

  ghost predicate DistinctKeys<K, V>(entries: seq<(K, V)>) {
    forall i, j :: 0 <= i < j < |entries| ==> entries[i].0 != entries[j].0
  }

  lemma AddEntry<K, V>(index: map<K, V>, entries: seq<(K, V)>, k: K, v: V)
    requires Indexes(index, entries) && DistinctKeys(entries) && k !in index
    ensures Indexes(index[k := v], entries + [(k, v)])
    ensures DistinctKeys(entries + [(k, v)])
  {
  }

  lemma Clash<K, V>(index: map<K, V>, entries: seq<(K, V)>, k: K, v: V, rest: seq<(K, V)>)
    requires Indexes(index, entries) && k in index
    ensures !DistinctKeys(entries + [(k, v)] + rest)
  {
    var all := entries + [(k, v)] + rest;
    var i :| 0 <= i < |entries| && entries[i] == (k, index[k]);
    assert all[i].0 == all[|entries|].0;
  }

  /** A lookup answers exactly as a scan of the list. */
  lemma LookupIsScan<K, V>(index: map<K, V>, entries: seq<(K, V)>, k: K, v: V)
    requires Indexes(index, entries)
    ensures k in index && index[k] == v <==> (k, v) in entries
  {
  }

  // ---------- the lists ----------

  function AppEntries(apps: seq<GithubAppConfig>): seq<(string, GithubAppConfig)> {
    seq(|apps|, i requires 0 <= i < |apps| => (apps[i].id, apps[i]))
  }

  function SlugEntries(tenants: seq<TenantConfig>): seq<(string, TenantConfig)> {
    seq(|tenants|, i requires 0 <= i < |tenants| => (tenants[i].slug, tenants[i]))
  }

  function AppOrgEntries(tenants: seq<TenantConfig>): seq<((string, string), TenantConfig)> {
    seq(|tenants|, i requires 0 <= i < |tenants| => ((tenants[i].appRef, tenants[i].orgName), tenants[i]))
  }

  /** One entry for each connector a tenant lists, repetitions included. */
  function TrustEntries(tenant: TenantConfig, count: nat): seq<((string, string), TenantConfig)>
    requires count <= |tenant.connectorIds|
  {
    seq(count, i requires 0 <= i < count => ((tenant.connectorIds[i], tenant.orgName), tenant))
  }

  function ConnectorEntries(tenants: seq<TenantConfig>): seq<((string, string), TenantConfig)> {
    if tenants == [] then []
    else
      var last := tenants[|tenants| - 1];
      ConnectorEntries(tenants[..|tenants| - 1]) + TrustEntries(last, |last.connectorIds|)
  }

  predicate Trusts(tenant: TenantConfig, connectorId: string, org: string) {
    connectorId in tenant.connectorIds && tenant.orgName == org
  }

  lemma {:induction false} ConnectorEntriesAre(
      tenants: seq<TenantConfig>, connectorId: string, org: string, t: TenantConfig)
    ensures ((connectorId, org), t) in ConnectorEntries(tenants) <==> t in tenants && Trusts(t, connectorId, org)
  {
    if tenants == [] {
    } else {
      var n := |tenants| - 1;
      var front, last := tenants[..n], tenants[n];
      ConnectorEntriesAre(front, connectorId, org, t);
      assert t in tenants <==> t in front || t == last by {
        assert tenants == front + [last];
      }
      var own := TrustEntries(last, |last.connectorIds|);
      assert ((connectorId, org), t) in own <==> t == last && Trusts(t, connectorId, org) by {
        if t == last && Trusts(t, connectorId, org) {
          var j :| 0 <= j < |last.connectorIds| && last.connectorIds[j] == connectorId;
          assert own[j] == ((connectorId, org), t);
        }
      }
    }
  }

  lemma {:induction false} ConnectorEntriesSplit(tenants: seq<TenantConfig>, k: nat)
    returns (rest: seq<((string, string), TenantConfig)>)
    requires k <= |tenants|
    ensures ConnectorEntries(tenants) == ConnectorEntries(tenants[..k]) + rest
  {
    if k == |tenants| {
      assert tenants[..k] == tenants;
      rest := [];
    } else {
      var n := |tenants| - 1;
      var last := tenants[n];
      rest := ConnectorEntriesSplit(tenants[..n], k);
      assert tenants[..n][..k] == tenants[..k];
      var own := TrustEntries(last, |last.connectorIds|);
      Regroup(ConnectorEntries(tenants[..k]), rest, own);
      rest := rest + own;
    }
  }

  // ---------- building ----------

  ghost predicate ValidApps(apps: seq<GithubAppConfig>) {
    && (forall i :: 0 <= i < |apps| ==> ValidApp(apps[i]))
    && DistinctKeys(AppEntries(apps))
  }

  lemma AppEntriesGrow(apps: seq<GithubAppConfig>, n: nat)
    requires n < |apps|
    ensures AppEntries(apps[..n + 1]) == AppEntries(apps[..n]) + [(apps[n].id, apps[n])]
    ensures AppEntries(apps) == AppEntries(apps[..n]) + [(apps[n].id, apps[n])] + AppEntries(apps[n + 1..])
  {
  }

  method BuildApps(apps: seq<GithubAppConfig>) returns (result: Result<map<string, GithubAppConfig>, TenancyError>)
    ensures result.Ok? <==> ValidApps(apps)
    ensures result.Ok? ==> Indexes(result.value, AppEntries(apps))
  {
    var byId: map<string, GithubAppConfig> := map[];
    for n := 0 to |apps|
      invariant forall i :: 0 <= i < n ==> ValidApp(apps[i])
      invariant Indexes(byId, AppEntries(apps[..n])) && DistinctKeys(AppEntries(apps[..n]))
    {
      var app := apps[n];
      var valid := ValidateAppEntry(app);
      if !valid {
        return Err(Validation);
      }
      AppEntriesGrow(apps, n);
      ghost var entries := AppEntries(apps[..n]);
      if app.id in byId {
        Clash(byId, entries, app.id, app, AppEntries(apps[n + 1..]));
        return Err(Validation);
      }
      AddEntry(byId, entries, app.id, app);
      byId := byId[app.id := app];
    }
    assert apps[..|apps|] == apps;
    return Ok(byId);
  }

  ghost predicate ValidTenants(tenants: seq<TenantConfig>, appIds: set<string>) {
    && (forall i :: 0 <= i < |tenants| ==> ValidTenant(tenants[i], appIds))
    && DistinctKeys(SlugEntries(tenants))
    && DistinctKeys(AppOrgEntries(tenants))
    && DistinctKeys(ConnectorEntries(tenants))
  }

  lemma DistinctParts<K, V>(a: seq<(K, V)>, b: seq<(K, V)>)
    ensures DistinctKeys(a + b) <==>
      DistinctKeys(a) && DistinctKeys(b) && forall e, f :: e in a && f in b ==> e.0 != f.0
  {
    var all := a + b;
    if DistinctKeys(all) {
      forall i, j | 0 <= i < j < |a| ensures a[i].0 != a[j].0 {
        assert all[i].0 != all[j].0;
      }
      forall i, j | 0 <= i < j < |b| ensures b[i].0 != b[j].0 {
        assert all[|a| + i].0 != all[|a| + j].0;
      }
      forall e, f | e in a && f in b ensures e.0 != f.0 {
        var i :| 0 <= i < |a| && a[i] == e;
        var j :| 0 <= j < |b| && b[j] == f;
        assert all[i].0 != all[|a| + j].0;
      }
    }
  }

  lemma OwnEntriesDistinct(tenant: TenantConfig)
    ensures DistinctKeys(TrustEntries(tenant, |tenant.connectorIds|)) <==> Distinct(tenant.connectorIds)
  {
    var own := TrustEntries(tenant, |tenant.connectorIds|);
    assert forall i :: 0 <= i < |own| ==> own[i].0 == (tenant.connectorIds[i], tenant.orgName);
    if DistinctKeys(own) {
      forall i, j | 0 <= i < j < |own| ensures tenant.connectorIds[i] != tenant.connectorIds[j] {
        assert own[i].0 != own[j].0;
      }
    }
  }

  ghost predicate Overlap(a: TenantConfig, b: TenantConfig) {
    a.orgName == b.orgName && exists c :: c in a.connectorIds && c in b.connectorIds
  }

  /** No connector appears twice for one organisation, within a tenant or across two. */
  lemma {:induction false} ConnectorsDistinct(tenants: seq<TenantConfig>)
    ensures DistinctKeys(ConnectorEntries(tenants)) <==>
      && (forall t :: t in tenants ==> Distinct(t.connectorIds))
      && forall i, j :: 0 <= i < j < |tenants| ==> !Overlap(tenants[i], tenants[j])
  {
    hide DistinctKeys, TrustEntries;
    if tenants == [] {
      NoEntries(tenants);
      assert tenants[..0] == tenants;
    } else {
      var n := |tenants| - 1;
      var front, last := tenants[..n], tenants[n];
      var own := TrustEntries(last, |last.connectorIds|);
      ConnectorsDistinct(front);
      OwnEntriesDistinct(last);
      DistinctParts(ConnectorEntries(front), own);
      NoCommonKey(front, last);
      assert tenants == front + [last];
      assert forall i :: 0 <= i < n ==> front[i] == tenants[i];
    }
  }

  lemma NoCommonKey(front: seq<TenantConfig>, last: TenantConfig)
    ensures var own := TrustEntries(last, |last.connectorIds|);
      (forall e, f :: e in ConnectorEntries(front) && f in own ==> e.0 != f.0)
      <==> forall i :: 0 <= i < |front| ==> !Overlap(front[i], last)
  {
    var own := TrustEntries(last, |last.connectorIds|);
    if i :| 0 <= i < |front| && Overlap(front[i], last) {
      CommonKey(front, i, last);
    }
    if e, f :| e in ConnectorEntries(front) && f in own && e.0 == f.0 {
      hide ConnectorEntries;
      var key := e.0;
      ConnectorEntriesAre(front, key.0, key.1, e.1);
      var i :| 0 <= i < |front| && front[i] == e.1;
      assert key.0 in last.connectorIds && key.1 == last.orgName;
      assert Overlap(front[i], last);
    }
  }

  lemma CommonKey(front: seq<TenantConfig>, i: nat, last: TenantConfig)
    requires i < |front| && Overlap(front[i], last)
    ensures exists e, f ::
      e in ConnectorEntries(front) && f in TrustEntries(last, |last.connectorIds|) && e.0 == f.0
  {
    hide ConnectorEntries;
    var c :| c in front[i].connectorIds && c in last.connectorIds;
    ConnectorEntriesAre(front, c, last.orgName, front[i]);
    var j :| 0 <= j < |last.connectorIds| && last.connectorIds[j] == c;
    var e, f := ((c, last.orgName), front[i]), TrustEntries(last, |last.connectorIds|)[j];
    assert e in ConnectorEntries(front) && f in TrustEntries(last, |last.connectorIds|) && e.0 == f.0;
  }

  /** What a document must satisfy to be accepted, tenant by tenant and pair by pair. */
  lemma AcceptedTenants(tenants: seq<TenantConfig>, appIds: set<string>)
    ensures ValidTenants(tenants, appIds) <==>
      && (forall t :: t in tenants ==> ValidTenant(t, appIds) && Distinct(t.connectorIds))
      && forall i, j :: 0 <= i < j < |tenants| ==>
           && tenants[i].slug != tenants[j].slug
           && (tenants[i].appRef != tenants[j].appRef || tenants[i].orgName != tenants[j].orgName)
           && (tenants[i].orgName != tenants[j].orgName
                 || forall c :: c in tenants[i].connectorIds ==> c !in tenants[j].connectorIds)
  {
    ConnectorsDistinct(tenants);
    PairsDistinct(tenants);
    assert forall i, j :: 0 <= i < j < |tenants| ==>
      (Overlap(tenants[i], tenants[j]) <==>
         && tenants[i].orgName == tenants[j].orgName
         && !(forall c :: c in tenants[i].connectorIds ==> c !in tenants[j].connectorIds));
  }

  lemma PairsDistinct(tenants: seq<TenantConfig>)
    ensures DistinctKeys(SlugEntries(tenants)) <==>
      forall i, j :: 0 <= i < j < |tenants| ==> tenants[i].slug != tenants[j].slug
    ensures DistinctKeys(AppOrgEntries(tenants)) <==>
      forall i, j :: 0 <= i < j < |tenants| ==>
        tenants[i].appRef != tenants[j].appRef || tenants[i].orgName != tenants[j].orgName
  {
    var slugs, pairs := SlugEntries(tenants), AppOrgEntries(tenants);
    assert forall i :: 0 <= i < |tenants| ==> slugs[i].0 == tenants[i].slug;
    assert forall i :: 0 <= i < |tenants| ==> pairs[i].0 == (tenants[i].appRef, tenants[i].orgName);
    if DistinctKeys(slugs) {
      forall i, j | 0 <= i < j < |tenants| ensures tenants[i].slug != tenants[j].slug {
        assert slugs[i].0 != slugs[j].0;
      }
    }
    if DistinctKeys(pairs) {
      forall i, j | 0 <= i < j < |tenants|
        ensures tenants[i].appRef != tenants[j].appRef || tenants[i].orgName != tenants[j].orgName
      {
        assert pairs[i].0 != pairs[j].0;
      }
    }
  }

  lemma TrustEntriesGrow(
      entries: seq<((string, string), TenantConfig)>, tenant: TenantConfig, j: nat)
    requires j < |tenant.connectorIds|
    ensures var entry, whole := ((tenant.connectorIds[j], tenant.orgName), tenant), |tenant.connectorIds|;
      && entries + TrustEntries(tenant, j + 1) == entries + TrustEntries(tenant, j) + [entry]
      && entries + TrustEntries(tenant, whole)
         == entries + TrustEntries(tenant, j) + [entry] + TrustEntries(tenant, whole)[j + 1..]
  {
  }

  /** Adds one tenant's connectors to the table, or finds one already taken, perhaps by the
      tenant itself. */
  method AddConnectors(
      table: map<(string, string), TenantConfig>, tenant: TenantConfig,
      ghost entries: seq<((string, string), TenantConfig)>)
    returns (free: bool, larger: map<(string, string), TenantConfig>)
    requires Indexes(table, entries) && DistinctKeys(entries)
    ensures var all := entries + TrustEntries(tenant, |tenant.connectorIds|);
      && (free <==> DistinctKeys(all))
      && (free ==> Indexes(larger, all))
  {
    larger := table;
    var ids := tenant.connectorIds;
    ghost var sofar := entries;
    assert entries + TrustEntries(tenant, 0) == entries;
    for j := 0 to |ids|
      invariant sofar == entries + TrustEntries(tenant, j)
      invariant Indexes(larger, sofar) && DistinctKeys(sofar)
    {
      var key := (ids[j], tenant.orgName);
      TrustEntriesGrow(entries, tenant, j);
      if key in larger {
        Clash(larger, sofar, key, tenant, TrustEntries(tenant, |ids|)[j + 1..]);
        return false, larger;
      }
      AddEntry(larger, sofar, key, tenant);
      larger := larger[key := tenant];
      sofar := sofar + [(key, tenant)];
    }
    return true, larger;
  }

  ghost predicate Stands(registry: TenantRegistry, tenants: seq<TenantConfig>) {
    && Indexes(registry.bySlug, SlugEntries(tenants))
    && Indexes(registry.byConnectorAndOrg, ConnectorEntries(tenants))
    && Indexes(registry.byAppAndOrg, AppOrgEntries(tenants))
  }

  lemma NoEntries(tenants: seq<TenantConfig>)
    ensures Indexes(map[], SlugEntries(tenants[..0])) && DistinctKeys(SlugEntries(tenants[..0]))
    ensures Indexes(map[], AppOrgEntries(tenants[..0])) && DistinctKeys(AppOrgEntries(tenants[..0]))
    ensures Indexes(map[], ConnectorEntries(tenants[..0])) && DistinctKeys(ConnectorEntries(tenants[..0]))
  {
  }

  method BuildTenants(tenants: seq<TenantConfig>, apps: map<string, GithubAppConfig>)
    returns (result: Result<TenantRegistry, TenancyError>)
    ensures result.Ok? <==> ValidTenants(tenants, apps.Keys)
    ensures result.Ok? ==> Stands(result.value, tenants)
  {
    hide Indexes, DistinctKeys, SlugEntries, AppOrgEntries, ConnectorEntries, TrustEntries;
    NoEntries(tenants);
    var bySlug: map<string, TenantConfig> := map[];
    var byConnectorAndOrg: map<(string, string), TenantConfig> := map[];
    var byAppAndOrg: map<(string, string), TenantConfig> := map[];
    for n := 0 to |tenants|
      invariant forall i :: 0 <= i < n ==> ValidTenant(tenants[i], apps.Keys)
      invariant Indexes(bySlug, SlugEntries(tenants[..n])) && DistinctKeys(SlugEntries(tenants[..n]))
      invariant Indexes(byAppAndOrg, AppOrgEntries(tenants[..n])) && DistinctKeys(AppOrgEntries(tenants[..n]))
      invariant Indexes(byConnectorAndOrg, ConnectorEntries(tenants[..n]))
      invariant DistinctKeys(ConnectorEntries(tenants[..n]))
    {
      var tenant := tenants[n];
      var valid := ValidateTenant(tenant, apps);
      if !valid {
        return Err(Validation);
      }
      EntriesGrow(tenants, n);
      ghost var slugs, pairs := SlugEntries(tenants[..n]), AppOrgEntries(tenants[..n]);
      if tenant.slug in bySlug {
        Clash(bySlug, slugs, tenant.slug, tenant, SlugEntries(tenants[n + 1..]));
        return Err(Validation);
      }
      var appOrg := (tenant.appRef, tenant.orgName);
      if appOrg in byAppAndOrg {
        Clash(byAppAndOrg, pairs, appOrg, tenant, AppOrgEntries(tenants[n + 1..]));
        return Err(Validation);
      }
      var free, larger := AddConnectors(byConnectorAndOrg, tenant, ConnectorEntries(tenants[..n]));
      if !free {
        TakenForGood(tenants, n + 1);
        return Err(Validation);
      }
      byConnectorAndOrg := larger;
      AddEntry(byAppAndOrg, pairs, appOrg, tenant);
      byAppAndOrg := byAppAndOrg[appOrg := tenant];
      AddEntry(bySlug, slugs, tenant.slug, tenant);
      bySlug := bySlug[tenant.slug := tenant];
    }
    assert tenants[..|tenants|] == tenants;
    return Ok(TenantRegistry(bySlug, byConnectorAndOrg, byAppAndOrg));
  }

  lemma EntriesGrow(tenants: seq<TenantConfig>, n: nat)
    requires n < |tenants|
    ensures var t := tenants[n];
      && SlugEntries(tenants[..n + 1]) == SlugEntries(tenants[..n]) + [(t.slug, t)]
      && SlugEntries(tenants) == SlugEntries(tenants[..n]) + [(t.slug, t)] + SlugEntries(tenants[n + 1..])
      && AppOrgEntries(tenants[..n + 1]) == AppOrgEntries(tenants[..n]) + [((t.appRef, t.orgName), t)]
      && AppOrgEntries(tenants)
         == AppOrgEntries(tenants[..n]) + [((t.appRef, t.orgName), t)] + AppOrgEntries(tenants[n + 1..])
      && ConnectorEntries(tenants[..n + 1])
         == ConnectorEntries(tenants[..n]) + TrustEntries(t, |t.connectorIds|)
  {
    assert tenants[..n + 1][..n] == tenants[..n];
  }

  lemma TakenForGood(tenants: seq<TenantConfig>, n: nat)
    requires n <= |tenants| && !DistinctKeys(ConnectorEntries(tenants[..n]))
    ensures !DistinctKeys(ConnectorEntries(tenants))
  {
    var rest := ConnectorEntriesSplit(tenants, n);
    var entries := ConnectorEntries(tenants[..n]);
    var i, j :| 0 <= i < j < |entries| && entries[i].0 == entries[j].0;
    assert (entries + rest)[i].0 == (entries + rest)[j].0;
  }

  method FromDocument(apps: seq<GithubAppConfig>, tenants: seq<TenantConfig>)
    returns (result: Result<TenantRegistry, TenancyError>)
    ensures result.Ok? <==> ValidApps(apps) && ValidTenants(tenants, set i | 0 <= i < |apps| :: apps[i].id)
    ensures result.Ok? ==> Stands(result.value, tenants)
  {
    var byId := BuildApps(apps);
    if byId.Err? {
      return Err(Validation);
    }
    AppIdsAre(byId.value, apps);
    result := BuildTenants(tenants, byId.value);
  }

  lemma AppIdsAre(byId: map<string, GithubAppConfig>, apps: seq<GithubAppConfig>)
    requires Indexes(byId, AppEntries(apps))
    ensures byId.Keys == set i | 0 <= i < |apps| :: apps[i].id
  {
    forall i | 0 <= i < |apps|
      ensures apps[i].id in byId
    {
      assert AppEntries(apps)[i].0 in byId;
    }
  }

  // ---------- lookups ----------

  function BySlug(registry: TenantRegistry, slug: string): Option<TenantConfig> {
    if slug in registry.bySlug then Some(registry.bySlug[slug]) else None
  }

  function FindForConnectorAndOrg(registry: TenantRegistry, connectorId: string, org: string): Option<TenantConfig> {
    if (connectorId, org) in registry.byConnectorAndOrg
    then Some(registry.byConnectorAndOrg[(connectorId, org)])
    else None
  }

  function ByAppAndOrg(registry: TenantRegistry, appRef: string, org: string): Option<TenantConfig> {
    if (appRef, org) in registry.byAppAndOrg then Some(registry.byAppAndOrg[(appRef, org)]) else None
  }

  /** Each lookup returns the tenant that a scan of the configured list would find. */
  lemma LookupsScanTheList(registry: TenantRegistry, tenants: seq<TenantConfig>, t: TenantConfig)
    requires Stands(registry, tenants)
    ensures forall slug :: BySlug(registry, slug) == Some(t) <==> t in tenants && t.slug == slug
    ensures forall app, org ::
      ByAppAndOrg(registry, app, org) == Some(t) <==> t in tenants && t.appRef == app && t.orgName == org
    ensures forall c, org ::
      FindForConnectorAndOrg(registry, c, org) == Some(t) <==> t in tenants && Trusts(t, c, org)
  {
    forall slug
      ensures BySlug(registry, slug) == Some(t) <==> t in tenants && t.slug == slug
    {
      LookupIsScan(registry.bySlug, SlugEntries(tenants), slug, t);
      SlugEntriesAre(tenants, slug, t);
    }
    forall app, org
      ensures ByAppAndOrg(registry, app, org) == Some(t) <==> t in tenants && t.appRef == app && t.orgName == org
    {
      LookupIsScan(registry.byAppAndOrg, AppOrgEntries(tenants), (app, org), t);
      AppOrgEntriesAre(tenants, app, org, t);
    }
    forall c, org
      ensures FindForConnectorAndOrg(registry, c, org) == Some(t) <==> t in tenants && Trusts(t, c, org)
    {
      LookupIsScan(registry.byConnectorAndOrg, ConnectorEntries(tenants), (c, org), t);
      ConnectorEntriesAre(tenants, c, org, t);
    }
  }

  lemma SlugEntriesAre(tenants: seq<TenantConfig>, slug: string, t: TenantConfig)
    ensures (slug, t) in SlugEntries(tenants) <==> t in tenants && t.slug == slug
  {
    if t in tenants && t.slug == slug {
      var i :| 0 <= i < |tenants| && tenants[i] == t;
      assert SlugEntries(tenants)[i] == (slug, t);
    }
  }

  lemma AppOrgEntriesAre(tenants: seq<TenantConfig>, app: string, org: string, t: TenantConfig)
    ensures ((app, org), t) in AppOrgEntries(tenants) <==> t in tenants && t.appRef == app && t.orgName == org
  {
    if t in tenants && t.appRef == app && t.orgName == org {
      var i :| 0 <= i < |tenants| && tenants[i] == t;
      assert AppOrgEntries(tenants)[i] == ((app, org), t);
    }
  }
}
