/** Tenant roles: seeding, validated edits, and the permission check that reads them. */
module RoleTable {
  import opened Wrappers
  import opened Catalog
  import opened Permissions

  datatype Role = Role(tenant: string, kind: string, permissions: map<string, int>)

  /** What a create or update request supplies. */
  datatype Attrs = Attrs(kind: Option<string>, permissions: Option<map<string, int>>)

  datatype Error = KindIsImmutable | WritesForViewer | NotFound

  /** The stored roles and the next unused identifier. */
  datatype Table = Table(rows: map<nat, Role>, next: nat)

  const NO_ROLES := Table(map[], 0)

  // ---- Validation ----

  /** A grant of at least 1 on a codename that the registry marks as writing. */
  predicate Writes(registry: Registry, permissions: map<string, int>) {
    exists c :: c in permissions && permissions[c] >= 1 && c in registry && !registry[c].readonly
  }

  function ValidationError(registry: Registry, instance: Option<Role>, attrs: Attrs): Option<Error> {
    if instance.Some? && attrs.kind.Some? then Some(KindIsImmutable)
    else
      var kind := if attrs.kind.Some? && attrs.kind.value != "" then attrs.kind
                  else if instance.Some? then Some(instance.value.kind) else None;
      var permissions := if attrs.permissions.Some? then attrs.permissions.value else map[];
      if kind == Some("viewer") && Writes(registry, permissions) then Some(WritesForViewer) else None
  }

  function Put(t: Table, role: Role): Table {
    Table(t.rows[t.next := role], t.next + 1)
  }

  function Created(tenant: string, attrs: Attrs): Role {
    Role(tenant,
         if attrs.kind.Some? then attrs.kind.value else "custom",
         if attrs.permissions.Some? then attrs.permissions.value else map[])
  }

  /** The roles of a new tenant, one for each of the first `n` default roles. */
  function Seeded(registry: Registry, tenant: string, t: Table, n: nat): Table
    requires n <= |DEFAULT_ROLES|
  {
    if n == 0 then t
    else
      var kind := DEFAULT_ROLES[n - 1];
      Put(Seeded(registry, tenant, t, n - 1), Role(tenant, kind, DefaultGrants(registry, kind)))
  }

  datatype Event =
    | NewTenant(tenant: string)
    | Create(tenant: string, attrs: Attrs)
    | Update(id: nat, attrs: Attrs)
    | Delete(id: nat)

  function Apply(registry: Registry, t: Table, e: Event): (Table, Option<Error>) {
    match e
    case NewTenant(tenant) => (Seeded(registry, tenant, t, |DEFAULT_ROLES|), None)
    case Create(tenant, attrs) =>
      var error := ValidationError(registry, None, attrs);
      (if error.Some? then t else Put(t, Created(tenant, attrs)), error)
    case Update(id, attrs) =>
      if id !in t.rows then (t, Some(NotFound))
      else
        var error := ValidationError(registry, Some(t.rows[id]), attrs);
        if error.Some? || attrs.permissions.None? then (t, error)
        else (t.(rows := t.rows[id := t.rows[id].(permissions := attrs.permissions.value)]), None)
    case Delete(id) => if id in t.rows then (t.(rows := t.rows - {id}), None) else (t, Some(NotFound))
  }

  function Run(registry: Registry, t: Table, events: seq<Event>): Table {
    if events == [] then t else Apply(registry, Run(registry, t, events[..|events| - 1]), events[|events| - 1]).0
  }

  /** The rows as the application holds them. */
  class Roles {
    var rows: map<nat, Role>
    var next: nat

    ghost function View(): Table
      reads this
    {
      Table(rows, next)
    }

    constructor ()
      ensures View() == NO_ROLES
    {
      rows, next := map[], 0;
    }

    method Insert(role: Role)
      modifies this
      ensures View() == Put(old(View()), role)
    {
      rows := rows[next := role];
      next := next + 1;
    }

    method SeedDefaultRoles(registry: Registry, tenant: string)
      modifies this
      ensures View() == Apply(registry, old(View()), NewTenant(tenant)).0
    {
      var grants := GetDefaultRolePermissions(registry);
      var i := 0;
      while i < |DEFAULT_ROLES|
        invariant 0 <= i <= |DEFAULT_ROLES| && View() == Seeded(registry, tenant, old(View()), i)
      {
        Insert(Role(tenant, DEFAULT_ROLES[i], grants[DEFAULT_ROLES[i]]));
        i := i + 1;
      }
    }
  }

  // ---- The decision ----

  datatype Membership = Membership(tenant: string, role: nat, isAdmin: bool, isActive: bool)

  datatype Request = Request(authenticated: bool, tenant: Option<string>, memberships: seq<Membership>)

  /** The part of a codename before its first dot. */
  function Head(codename: string): string {
    if codename == "" || codename[0] == '.' then "" else [codename[0]] + Head(codename[1..])
  }

  /** The grant is 1 for the app's access codename and for the codename itself. */
  predicate Grants(permissions: map<string, int>, codename: string) {
    var access := Head(codename) + ".access";
    access in permissions && permissions[access] == 1 && codename in permissions && permissions[codename] == 1
  }

  function ActiveMembership(memberships: seq<Membership>, tenant: string): (m: Option<Membership>)
    ensures m.Some? ==> m.value in memberships && m.value.tenant == tenant && m.value.isActive
    ensures m.None? ==> forall x :: x in memberships ==> x.tenant != tenant || !x.isActive
  {
    if memberships == [] then None
    else if memberships[0].tenant == tenant && memberships[0].isActive then Some(memberships[0])
    else ActiveMembership(memberships[1..], tenant)
  }

  /** The membership that decides a request, if one does. */
  function Deciding(q: Request): Option<Membership> {
    if !q.authenticated || q.tenant.None? || q.tenant.value == "" then None
    else ActiveMembership(q.memberships, q.tenant.value)
  }

  /** A membership's role cannot be deleted while the membership exists. */
  predicate RolesExist(t: Table, q: Request) {
    forall m :: m in q.memberships ==> m.role in t.rows
  }

  function HasPermission(t: Table, q: Request, codename: string): bool
    requires RolesExist(t, q)
  {
    var m := Deciding(q);
    m.Some? && (m.value.isAdmin || Grants(t.rows[m.value.role].permissions, codename))
  }

  /** Membership `i` is the first active one in the request's tenant. */
  predicate FirstActive(q: Request, i: int) {
    && q.tenant.Some? && 0 <= i < |q.memberships|
    && q.memberships[i].tenant == q.tenant.value && q.memberships[i].isActive
    && forall j :: 0 <= j < i ==> q.memberships[j].tenant != q.tenant.value || !q.memberships[j].isActive
  }

  lemma {:induction false} ActiveMembershipIs(memberships: seq<Membership>, tenant: string, i: nat)
    requires i < |memberships| && memberships[i].tenant == tenant && memberships[i].isActive
    requires forall j :: 0 <= j < i ==> memberships[j].tenant != tenant || !memberships[j].isActive
    ensures ActiveMembership(memberships, tenant) == Some(memberships[i])
  {
    if i > 0 {
      ActiveMembershipIs(memberships[1..], tenant, i - 1);
    }
  }

  lemma {:induction false} SomeFirstActive(memberships: seq<Membership>, tenant: string) returns (i: nat)
    requires ActiveMembership(memberships, tenant).Some?
    ensures i < |memberships| && memberships[i].tenant == tenant && memberships[i].isActive
    ensures forall j :: 0 <= j < i ==> memberships[j].tenant != tenant || !memberships[j].isActive
  {
    if memberships[0].tenant == tenant && memberships[0].isActive {
      i := 0;
    } else {
      var k := SomeFirstActive(memberships[1..], tenant);
      i := k + 1;
    }
  }

  /**
   A request may do what `app.rest` names exactly when it is authenticated, has a tenant, and its first active
   membership there is an administrator's or has a role that grants both the app's access and the codename.
   */
  lemma PermissionIff(t: Table, q: Request, app: string, rest: string)
    requires RolesExist(t, q) && '.' !in app
    ensures HasPermission(t, q, app + "." + rest) <==>
            && q.authenticated && q.tenant.Some? && q.tenant.value != ""
            && exists i :: FirstActive(q, i) && Allows(t, q.memberships[i], app + ".access", app + "." + rest)
  {
    HeadOf(app, rest);
    if q.authenticated && q.tenant.Some? && q.tenant.value != "" {
      forall i | FirstActive(q, i) ensures Deciding(q) == Some(q.memberships[i]) {
        ActiveMembershipIs(q.memberships, q.tenant.value, i);
      }
      if Deciding(q).Some? {
        var i := SomeFirstActive(q.memberships, q.tenant.value);
        assert FirstActive(q, i);
      }
    }
  }

  predicate Allows(t: Table, m: Membership, access: string, codename: string) {
    m.isAdmin
    || (&& m.role in t.rows
        && access in t.rows[m.role].permissions && t.rows[m.role].permissions[access] == 1
        && codename in t.rows[m.role].permissions && t.rows[m.role].permissions[codename] == 1)
  }

  // ---- Edits ----

  /** A grant of at least 1 on a codename that is not readonly in the registry. */
  predicate GrantsWriting(registry: Registry, permissions: Option<map<string, int>>) {
    permissions.Some?
    && exists c :: c in permissions.value && permissions.value[c] >= 1 && c in registry && !registry[c].readonly
  }

  /** A creation is refused exactly for a viewer that would write; else the role is as asked, or custom and bare. */
  lemma CreateIff(registry: Registry, t: Table, tenant: string, attrs: Attrs)
    ensures var (t', error) := Apply(registry, t, Create(tenant, attrs));
      && (error.Some? <==> attrs.kind == Some("viewer") && GrantsWriting(registry, attrs.permissions))
      && (error.Some? ==> t' == t)
      && (error.None? ==>
            && t'.rows.Keys == t.rows.Keys + {t.next} && t'.rows[t.next].tenant == tenant
            && t'.rows[t.next].kind == (if attrs.kind.Some? then attrs.kind.value else "custom")
            && t'.rows[t.next].permissions == (if attrs.permissions.Some? then attrs.permissions.value else map[])
            && forall id :: id in t.rows && id != t.next ==> t'.rows[id] == t.rows[id])
  {
  }

  /** A deletion takes away the one row, if it is there. */
  lemma DeleteIff(registry: Registry, t: Table, id: nat)
    ensures var (t', error) := Apply(registry, t, Delete(id));
      && (error.Some? <==> id !in t.rows) && t'.next == t.next && id !in t'.rows
      && forall k :: k != id ==> (k in t'.rows <==> k in t.rows) && (k in t.rows ==> t'.rows[k] == t.rows[k])
  {
  }

  /** An update is refused exactly when it names a kind, or would let a viewer write; else only the grants change. */
  lemma UpdateIff(registry: Registry, t: Table, id: nat, attrs: Attrs)
    requires id in t.rows
    ensures var (t', error) := Apply(registry, t, Update(id, attrs));
      && (error.Some? <==>
            attrs.kind.Some? || (t.rows[id].kind == "viewer" && GrantsWriting(registry, attrs.permissions)))
      && (error.Some? || attrs.permissions.None? ==> t' == t)
      && (error.None? && attrs.permissions.Some? ==>
            t' == t.(rows := t.rows[id := t.rows[id].(permissions := attrs.permissions.value)]))
  {
  }

  // ---- Viewers never write ----

  /** A viewer who is not an administrator is let through for a codename that writes. */
  ghost predicate ViewerWrites(registry: Registry, t: Table, q: Request, codename: string) {
    && codename in registry && !registry[codename].readonly
    && RolesExist(t, q) && Deciding(q).Some? && !Deciding(q).value.isAdmin
    && Deciding(q).value.role in t.rows && t.rows[Deciding(q).value.role].kind == "viewer"
    && HasPermission(t, q, codename)
  }

  ghost predicate ViewersNeverWrite(registry: Registry) {
    forall events, q, codename :: !ViewerWrites(registry, Run(registry, NO_ROLES, events), q, codename)
  }

  /** No writing codename reaches viewers by default together with its app's access codename. */
  ghost predicate Safe(registry: Registry) {
    forall c :: c in registry && !registry[c].readonly ==> !Grants(DefaultGrants(registry, "viewer"), c)
  }

  /** Every viewer role has the seeded grants, or grants that write nothing. */
  ghost predicate ViewerRows(registry: Registry, t: Table) {
    forall id :: id in t.rows && t.rows[id].kind == "viewer" ==>
      t.rows[id].permissions == DefaultGrants(registry, "viewer") || !Writes(registry, t.rows[id].permissions)
  }

  lemma {:induction false} SeededViewerRows(registry: Registry, tenant: string, t: Table, n: nat)
    requires n <= |DEFAULT_ROLES| && ViewerRows(registry, t)
    ensures ViewerRows(registry, Seeded(registry, tenant, t, n))
  {
    if n > 0 {
      SeededViewerRows(registry, tenant, t, n - 1);
    }
  }

  lemma ApplyViewerRows(registry: Registry, t: Table, e: Event)
    requires ViewerRows(registry, t)
    ensures ViewerRows(registry, Apply(registry, t, e).0)
  {
    if e.NewTenant? {
      SeededViewerRows(registry, e.tenant, t, |DEFAULT_ROLES|);
    }
  }

  lemma {:induction false} RunViewerRows(registry: Registry, events: seq<Event>)
    ensures ViewerRows(registry, Run(registry, NO_ROLES, events))
  {
    if events != [] {
      RunViewerRows(registry, events[..|events| - 1]);
      ApplyViewerRows(registry, Run(registry, NO_ROLES, events[..|events| - 1]), events[|events| - 1]);
    }
  }

  /** Seeding adds one row per default role, in order, each with its default grants, and keeps the rows there were. */
  lemma {:induction false} SeededRows(registry: Registry, tenant: string, t: Table, n: nat)
    requires n <= |DEFAULT_ROLES| && forall id :: id in t.rows ==> id < t.next
    ensures var t' := Seeded(registry, tenant, t, n);
      && t'.next == t.next + n
      && (forall id :: id in t'.rows <==> id in t.rows || t.next <= id < t.next + n)
      && (forall id :: id in t.rows ==> t'.rows[id] == t.rows[id])
      && forall k :: 0 <= k < n ==>
           t'.rows[t.next + k] == Role(tenant, DEFAULT_ROLES[k], DefaultGrants(registry, DEFAULT_ROLES[k]))
  {
    if n > 0 {
      SeededRows(registry, tenant, t, n - 1);
    }
  }

  lemma SeededViewer(registry: Registry, tenant: string) returns (t: Table)
    ensures t == Run(registry, NO_ROLES, [NewTenant(tenant)])
    ensures 3 in t.rows && t.rows[3] == Role(tenant, "viewer", DefaultGrants(registry, "viewer"))
  {
    var events := [NewTenant(tenant)];
    assert events[..0] == [];
    assert Run(registry, NO_ROLES, events[..0]) == NO_ROLES;
    t := Run(registry, NO_ROLES, events);
    assert t == Apply(registry, NO_ROLES, events[0]).0;
    SeededRows(registry, tenant, NO_ROLES, |DEFAULT_ROLES|);
    assert DEFAULT_ROLES[3] == "viewer" && t.rows[NO_ROLES.next + 3].kind == "viewer";
  }

  /** Over every history of tenants, creations, updates and deletions, exactly a safe registry keeps viewers reading. */
  lemma ViewersNeverWriteIff(registry: Registry)
    ensures ViewersNeverWrite(registry) <==> Safe(registry)
  {
    if Safe(registry) {
      forall events, q, codename ensures !ViewerWrites(registry, Run(registry, NO_ROLES, events), q, codename) {
        RunViewerRows(registry, events);
      }
    } else {
      var c :| c in registry && !registry[c].readonly && Grants(DefaultGrants(registry, "viewer"), c);
      var t := SeededViewer(registry, "acme");
      var m := Membership("acme", 3, false, true);
      var q := Request(true, Some("acme"), [m]);
      assert RolesExist(t, q);
      assert Deciding(q) == Some(m);
      assert ViewerWrites(registry, t, q, c);
    }
  }

  /** Whatever happens to a role, its kind and tenant stay, and once deleted it does not come back. */
  lemma StepKeepsKind(registry: Registry, t: Table, e: Event)
    requires forall id :: id in t.rows ==> id < t.next
    ensures var t' := Apply(registry, t, e).0;
      && t.next <= t'.next && (forall id :: id in t'.rows ==> id < t'.next)
      && forall id :: id in t'.rows && id < t.next ==>
           id in t.rows && t'.rows[id].kind == t.rows[id].kind && t'.rows[id].tenant == t.rows[id].tenant
  {
    if e.NewTenant? {
      SeededRows(registry, e.tenant, t, |DEFAULT_ROLES|);
    }
  }

  lemma {:induction false} KindIsFixed(registry: Registry, t: Table, events: seq<Event>)
    requires forall id :: id in t.rows ==> id < t.next
    ensures var t' := Run(registry, t, events);
      && t.next <= t'.next && (forall id :: id in t'.rows ==> id < t'.next)
      && forall id :: id in t'.rows && id < t.next ==>
           id in t.rows && t'.rows[id].kind == t.rows[id].kind && t'.rows[id].tenant == t.rows[id].tenant
  {
    if events != [] {
      var n := |events| - 1;
      KindIsFixed(registry, t, events[..n]);
      StepKeepsKind(registry, Run(registry, t, events[..n]), events[n]);
    }
  }

  // ---- What validation and readonly access entries give ----

  ghost predicate RulesPass(apps: seq<App>) {
    forall i, p :: 0 <= i < |apps| ==> !BreaksRule(apps[i].catalog, p)
  }

  ghost predicate ViewerAccessIsReadonly(apps: seq<App>) {
    forall i :: 0 <= i < |apps| && ActionAt(apps[i].catalog, AccessPath).Some? ==>
      var x := ActionAt(apps[i].catalog, AccessPath).value;
      Granted(x, "viewer") ==> x.readonly
  }

  lemma RulesMakeSafe(apps: seq<App>, registry: Registry)
    requires Flattens(apps, registry) && RulesPass(apps) && ViewerAccessIsReadonly(apps)
    ensures Safe(registry)
  {
    forall c | c in registry && !registry[c].readonly ensures !Grants(DefaultGrants(registry, "viewer"), c) {
      assert Indexed(apps, |apps|, c, registry[c]);
      var i, p :| 0 <= i < |apps| && EntryAt(apps[i], p, c, registry[c]);
      assert !BreaksRule(apps[i].catalog, p);
    }
  }

  lemma {:induction false} HeadOf(app: string, rest: string)
    requires '.' !in app
    ensures Head(app + "." + rest) == app
  {
    var s := app + "." + rest;
    if app != "" {
      HeadOf(app[1..], rest);
      assert s[1..] == app[1..] + "." + rest;
    }
  }

  /** Without shared codenames the registry holds every entry. */
  lemma RegistryHolds(apps: seq<App>, registry: Registry, i: nat, p: Path)
    requires Flattens(apps, registry) && AllDistinct(apps) && i < |apps| && p in Paths(apps[i].catalog)
    ensures Codename(apps[i].name, p) in registry
    ensures ActionAt(apps[i].catalog, p) == Some(registry[Codename(apps[i].name, p)])
  {
    var k := Codename(apps[i].name, p);
    assert k in Codenames(apps, |apps|);
    assert Indexed(apps, |apps|, k, registry[k]);
  }

  lemma AccessGuardsItself(app: string)
    requires '.' !in app
    ensures Head(Codename(app, AccessPath)) + ".access" == Codename(app, AccessPath)
  {
    HeadOf(app, "access");
    assert app + "." + "access" == Codename(app, AccessPath);
  }

  /** A dotless app whose access entry writes and is granted to viewers makes the registry unsafe. */
  lemma WritableAccessIsUnsafe(apps: seq<App>, registry: Registry, i: nat)
    requires Flattens(apps, registry) && AllDistinct(apps) && i < |apps| && '.' !in apps[i].name
    requires ActionAt(apps[i].catalog, AccessPath).Some?
    requires Granted(ActionAt(apps[i].catalog, AccessPath).value, "viewer")
    requires !ActionAt(apps[i].catalog, AccessPath).value.readonly
    ensures !Safe(registry)
  {
    RegistryHolds(apps, registry, i, AccessPath);
    AccessGuardsItself(apps[i].name);
    var c := Codename(apps[i].name, AccessPath);
    assert Grants(DefaultGrants(registry, "viewer"), c);
  }

  /** For validated catalogs with dotless labels, a readonly access entry is also necessary. */
  lemma SafeIffAccessIsReadonly(apps: seq<App>, registry: Registry)
    requires Flattens(apps, registry) && RulesPass(apps) && AllDistinct(apps)
    requires forall i :: 0 <= i < |apps| ==> '.' !in apps[i].name
    ensures ViewersNeverWrite(registry) <==> ViewerAccessIsReadonly(apps)
  {
    ViewersNeverWriteIff(registry);
    if ViewerAccessIsReadonly(apps) {
      RulesMakeSafe(apps, registry);
    } else {
      var i :| 0 <= i < |apps| && ActionAt(apps[i].catalog, AccessPath).Some?
               && Granted(ActionAt(apps[i].catalog, AccessPath).value, "viewer")
               && !ActionAt(apps[i].catalog, AccessPath).value.readonly;
      WritableAccessIsUnsafe(apps, registry, i);
    }
  }

  // ---- Effective catalogs ----

  /** A domain app and its own declarations, if it has any. */
  datatype DomainApp = DomainApp(name: string, explicit: Option<Catalog>)

  function Effective(env: Env, a: DomainApp): App {
    GeneratedIsClean(env, a.name);
    var defaults := GenerateDefault(env, a.name);
    App(a.name, if a.explicit.None? then defaults else Merge(env, defaults, a.explicit.value))
  }

  predicate ViewerMayWrite(x: Action) {
    !x.readonly && Granted(x, "viewer")
  }

  /** Generated actions, for the app itself or for a resource that it declares, never let viewers write. */
  lemma DefaultsNeverBreak(env: Env, app: string, e: Catalog, r: string, action: string)
    requires env.crud == DEFAULT_CRUD
    ensures var x := DefaultOf(env, GenerateDefault(env, app), e, r, action); x.Some? ==> !ViewerMayWrite(x.value)
  {
  }

  /** An effective catalog breaks the rule at an action exactly when the app itself declares that action so. */
  lemma EffectiveBreaksIff(env: Env, a: DomainApp, r: string, action: string)
    requires env.crud == DEFAULT_CRUD
    ensures BreaksRule(Effective(env, a).catalog, ActionPath(r, action)) <==>
            a.explicit.Some? && SettingOf(a.explicit.value, r, action).Given?
            && ViewerMayWrite(SettingOf(a.explicit.value, r, action).action)
  {
    GeneratedIsClean(env, a.name);
    var d := GenerateDefault(env, a.name);
    if a.explicit.None? {
      DefaultsNeverBreak(env, a.name, d, r, action);
    } else {
      DefaultsNeverBreak(env, a.name, a.explicit.value, r, action);
      MergeIsOverride(env, d, a.explicit.value, r, action);
    }
  }

  /** And its access entry lets viewers write exactly when the app itself declares it so. */
  lemma EffectiveAccessIff(env: Env, a: DomainApp)
    requires env.access == DEFAULT_ACCESS
    ensures var x := ActionAt(Effective(env, a).catalog, AccessPath);
            (x.Some? && ViewerMayWrite(x.value)) <==>
            a.explicit.Some? && a.explicit.value.access.Some? && a.explicit.value.access.value.On?
            && ViewerMayWrite(a.explicit.value.access.value.value)
  {
  }

  /** What an app declares never grants viewers a writing entry. */
  ghost predicate DeclaresNoWrites(a: DomainApp) {
    a.explicit.Some? ==>
      && (forall r, action :: SettingOf(a.explicit.value, r, action).Given? ==>
            !ViewerMayWrite(SettingOf(a.explicit.value, r, action).action))
      && (a.explicit.value.access.Some? && a.explicit.value.access.value.On? ==>
            !ViewerMayWrite(a.explicit.value.access.value.value))
  }

  /**
   From declarations to decisions: if no app declares a writing entry for viewers, then over every history of
   the role table no viewer who is not an administrator is let through for a writing codename.
   */
  lemma DeclarationsDecide(env: Env, domain: seq<DomainApp>, registry: Registry)
    requires env.crud == DEFAULT_CRUD && env.access == DEFAULT_ACCESS
    requires Flattens(seq(|domain|, i requires 0 <= i < |domain| => Effective(env, domain[i])), registry)
    requires forall i :: 0 <= i < |domain| ==> DeclaresNoWrites(domain[i])
    ensures ViewersNeverWrite(registry)
  {
    var apps := seq(|domain|, i requires 0 <= i < |domain| => Effective(env, domain[i]));
    forall i, p | 0 <= i < |apps| ensures !BreaksRule(apps[i].catalog, p) {
      if p.ActionPath? {
        EffectiveBreaksIff(env, domain[i], p.resource, p.action);
      }
    }
    forall i | 0 <= i < |apps| && ActionAt(apps[i].catalog, AccessPath).Some?
      ensures var x := ActionAt(apps[i].catalog, AccessPath).value; Granted(x, "viewer") ==> x.readonly
    {
      EffectiveAccessIff(env, domain[i]);
    }
    RulesMakeSafe(apps, registry);
    ViewersNeverWriteIff(registry);
  }
}
