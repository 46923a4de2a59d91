/** Permission catalogs: generated defaults, and an app's own declarations merged over them. */
module Catalog {
  import opened Wrappers

  datatype Action = Action(caption: string, readonly: bool, roles: map<string, int>)

  /** An entry of a catalog: a definition, or the value `false` that removes one. */
  datatype Switch<+T> = Off | On(value: T)

  datatype Resource = Resource(caption: Option<string>, actions: map<string, Switch<Action>>)

  type Resources = map<string, Switch<Resource>>

  datatype Catalog = Catalog(access: Option<Switch<Action>>, resources: Option<Switch<Resources>>)

  /** The text operations that shape captions, and the table of generated actions. */
  datatype Env = Env(
    lower: string -> string,
    capitalize: string -> string,
    unscore: string -> string,
    crud: map<string, Action>,
    access: Action)

  const ALL_ROLES := map["owner" := 1, "admin" := 1, "member" := 1, "viewer" := 1]
  const WRITE_ROLES := map["owner" := 1, "admin" := 1, "member" := 0, "viewer" := 0]

  const DEFAULT_ACCESS := Action("Access", true, ALL_ROLES)
  const DEFAULT_CRUD := map[
    "view" := Action("View", true, ALL_ROLES),
    "create" := Action("Create", false, WRITE_ROLES),
    "update" := Action("Update", false, WRITE_ROLES),
    "delete" := Action("Delete", false, WRITE_ROLES)]

  function Captioned(env: Env, action: Action, caption: string): Action {
    action.(caption := action.caption + " " + env.lower(caption))
  }

  function GeneratedActions(env: Env, caption: string): map<string, Switch<Action>> {
    map a | a in env.crud :: On(Captioned(env, env.crud[a], caption))
  }

  function GenerateDefault(env: Env, app: string): Catalog {
    var caption := env.capitalize(env.unscore(app));
    Catalog(
      Some(On(Captioned(env, env.access, caption))),
      Some(On(map[app := On(Resource(Some(caption), GeneratedActions(env, caption)))])))
  }

  /** The declared resources; an absent or disabled section has none. */
  function ResourcesOf(c: Catalog): Resources {
    if c.resources.Some? && c.resources.value.On? then c.resources.value.value else map[]
  }

  /** A catalog without `false` anywhere, whose resources all have captions. */
  predicate Clean(c: Catalog) {
    && (c.access.Some? ==> c.access.value.On?)
    && (c.resources.Some? ==> c.resources.value.On?)
    && forall r :: r in ResourcesOf(c) ==>
         var x := ResourcesOf(c)[r];
         x.On? && CleanResource(x.value)
  }

  // ---- Merging ----

  /** Explicit actions over base actions: `false` removes, a definition replaces or adds. */
  function Overridden(base: map<string, Switch<Action>>, over: map<string, Switch<Action>>): map<string,
                      Switch<Action>> {
    map a | a in base.Keys + over.Keys && (a in over ==> over[a].On?) :: if a in over then over[a] else base[a]
  }

  function MergedAccess(d: Catalog, e: Catalog): Option<Switch<Action>> {
    match e.access
    case Some(Off) => None
    case Some(On(x)) => Some(On(x))
    case None => if d.access.Some? && d.access.value.On? then d.access else None
  }

  function CaptionFor(env: Env, declared: Option<string>, r: string): string {
    if declared.Some? then declared.value else env.capitalize(r)
  }

  /** The merged definition of resource `r`, if it keeps one. */
  function MergedResource(env: Env, d: Resources, e: Resources, r: string): Option<Resource>
    requires forall k :: k in d ==> d[k].On? && d[k].value.caption.Some?
  {
    if r in d then
      if r !in e then Some(d[r].value)
      else if e[r].Off? then None
      else
        var caption := if e[r].value.caption.Some? then e[r].value.caption else d[r].value.caption;
        Some(Resource(caption, Overridden(d[r].value.actions, e[r].value.actions)))
    else if r in e && e[r].On? then
      var caption := CaptionFor(env, e[r].value.caption, r);
      var actions := Overridden(GeneratedActions(env, caption), e[r].value.actions);
      if actions == map[] then None else Some(Resource(Some(caption), actions))
    else None
  }

  function MergedResources(env: Env, d: Resources, e: Resources): Resources
    requires forall k :: k in d ==> d[k].On? && d[k].value.caption.Some?
  {
    map r | r in d.Keys + e.Keys && MergedResource(env, d, e, r).Some? :: On(MergedResource(env, d, e, r).value)
  }

  function Merge(env: Env, d: Catalog, e: Catalog): Catalog
    requires Clean(d)
  {
    var resources := if e.resources == Some(Off) then map[] else MergedResources(env, ResourcesOf(d), ResourcesOf(e));
    Catalog(MergedAccess(d, e), Some(On(resources)))
  }

  /** The loop over explicit actions: pop what is `false`, set the rest. */
  method OverrideActions(base: map<string, Switch<Action>>, over: map<string, Switch<Action>>)
    returns (merged: map<string, Switch<Action>>)
    ensures merged == Overridden(base, over)
  {
    merged := base;
    var todo := over.Keys;
    while todo != {}
      invariant todo <= over.Keys
      invariant merged == Overridden(base, over - todo)
      decreases todo
    {
      var a :| a in todo;
      if over[a].Off? {
        merged := merged - {a};
      } else {
        merged := merged[a := over[a]];
      }
      todo := todo - {a};
    }
    assert over - {} == over;
  }

  /** One default resource under the explicit catalog. */
  method MergeDefault(env: Env, d: Resources, e: Resources, name: string) returns (r: Option<Resource>)
    requires name in d && forall k :: k in d ==> d[k].On? && d[k].value.caption.Some?
    ensures r == MergedResource(env, d, e, name)
  {
    if name !in e {
      return Some(d[name].value);
    }
    if e[name].Off? {
      return None;
    }
    var actions := OverrideActions(d[name].value.actions, e[name].value.actions);
    var caption := if e[name].value.caption.Some? then e[name].value.caption else d[name].value.caption;
    return Some(Resource(caption, actions));
  }

  /** One resource that only the explicit catalog names: generated actions under its own, unless none is left. */
  method MergeNew(env: Env, d: Resources, e: Resources, name: string) returns (r: Option<Resource>)
    requires name !in d && name in e && forall k :: k in d ==> d[k].On? && d[k].value.caption.Some?
    ensures r == MergedResource(env, d, e, name)
  {
    if e[name].Off? {
      return None;
    }
    var caption := if e[name].value.caption.Some? then e[name].value.caption.value else env.capitalize(name);
    var actions := OverrideActions(GeneratedActions(env, caption), e[name].value.actions);
    return if actions == map[] then None else Some(Resource(Some(caption), actions));
  }

  /** The two loops of the merge: the defaults first, then the resources that only the explicit catalog names. */
  method MergeResources(env: Env, d: Resources, e: Resources) returns (merged: Resources)
    requires forall k :: k in d ==> d[k].On? && d[k].value.caption.Some?
    ensures merged == MergedResources(env, d, e)
  {
    merged := map[];
    var todo := d.Keys;
    while todo != {}
      invariant todo <= d.Keys && MergedSoFar(env, d, e, d.Keys - todo, merged)
      decreases todo
    {
      var name :| name in todo;
      var kept := MergeDefault(env, d, e, name);
      if kept.Some? {
        merged := merged[name := On(kept.value)];
      }
      todo := todo - {name};
    }
    todo := e.Keys - d.Keys;
    while todo != {}
      invariant todo <= e.Keys - d.Keys && MergedSoFar(env, d, e, d.Keys + e.Keys - todo, merged)
      decreases todo
    {
      var name :| name in todo;
      var added := MergeNew(env, d, e, name);
      if added.Some? {
        merged := merged[name := On(added.value)];
      }
      todo := todo - {name};
    }
  }

  method MergeCatalog(env: Env, d: Catalog, e: Catalog) returns (r: Catalog)
    requires Clean(d)
    ensures r == Merge(env, d, e)
  {
    var access := d.access;
    if e.access.Some? {
      access := if e.access.value.Off? then None else e.access;
    }
    if e.resources == Some(Off) {
      return Catalog(access, Some(On(map[])));
    }
    var merged := MergeResources(env, ResourcesOf(d), ResourcesOf(e));
    return Catalog(access, Some(On(merged)));
  }

  /** `merged` holds the merged definitions of exactly the names in `done`. */
  ghost predicate MergedSoFar(env: Env, d: Resources, e: Resources, done: set<string>, merged: Resources)
    requires forall k :: k in d ==> d[k].On? && d[k].value.caption.Some?
  {
    forall r :: (r in merged <==> r in done && MergedResource(env, d, e, r).Some?)
                && (r in merged ==> merged[r] == On(MergedResource(env, d, e, r).value))
  }

  // ---- The merge as a pointwise override ----

  /** The action that a catalog defines at a resource, if any. */
  function ActionOf(c: Catalog, r: string, a: string): Option<Action> {
    var rs := ResourcesOf(c);
    if r in rs && rs[r].On? && a in rs[r].value.actions && rs[r].value.actions[a].On?
    then Some(rs[r].value.actions[a].value) else None
  }

  /** What the explicit catalog says about one action, at the innermost level that says anything. */
  datatype Setting = Removed | Given(action: Action) | Unset

  function SettingOf(e: Catalog, r: string, a: string): Setting {
    if e.resources == Some(Off) then Removed
    else if r !in ResourcesOf(e) then Unset
    else if ResourcesOf(e)[r].Off? then Removed
    else
      var actions := ResourcesOf(e)[r].value.actions;
      if a !in actions then Unset else if actions[a].Off? then Removed else Given(actions[a].value)
  }

  /** The default that an unset action falls back to. */
  function DefaultOf(env: Env, d: Catalog, e: Catalog, r: string, a: string): Option<Action> {
    if r in ResourcesOf(d) then ActionOf(d, r, a)
    else if r in ResourcesOf(e) && ResourcesOf(e)[r].On? && a in env.crud then
      Some(Captioned(env, env.crud[a], CaptionFor(env, ResourcesOf(e)[r].value.caption, r)))
    else None
  }

  /** The action that a resource defines, if the resource is there. */
  function ActionIn(x: Option<Resource>, a: string): Option<Action> {
    if x.Some? && a in x.value.actions && x.value.actions[a].On? then Some(x.value.actions[a].value) else None
  }

  lemma MergedActionOf(env: Env, d: Catalog, e: Catalog, r: string, a: string)
    requires Clean(d) && e.resources != Some(Off)
    ensures ActionOf(Merge(env, d, e), r, a) == ActionIn(MergedResource(env, ResourcesOf(d), ResourcesOf(e), r), a)
  {
    var dr, er := ResourcesOf(d), ResourcesOf(e);
    var m, kept := MergedResources(env, dr, er), MergedResource(env, dr, er, r);
    assert ResourcesOf(Merge(env, d, e)) == m;
    if kept.Some? {
      assert r in dr.Keys + er.Keys;
      assert r in m && m[r] == On(kept.value);
    } else {
      assert r !in m;
    }
  }

  lemma OverriddenAt(base: map<string, Switch<Action>>, over: map<string, Switch<Action>>, a: string)
    ensures a in Overridden(base, over) <==> if a in over then over[a].On? else a in base
    ensures a in Overridden(base, over) ==> Overridden(base, over)[a] == if a in over then over[a] else base[a]
  {
    assert a in base.Keys + over.Keys <==> a in base || a in over;
  }

  /** What is merged under a default resource. */
  lemma DefaultIsOverride(env: Env, d: Catalog, e: Catalog, r: string, a: string)
    requires Clean(d) && e.resources != Some(Off) && r in ResourcesOf(d)
    ensures ActionIn(MergedResource(env, ResourcesOf(d), ResourcesOf(e), r), a)
            == match SettingOf(e, r, a)
               case Removed => None
               case Given(x) => Some(x)
               case Unset => ActionOf(d, r, a)
  {
    var dr, er := ResourcesOf(d), ResourcesOf(e);
    if r in er && er[r].On? {
      OverriddenAt(dr[r].value.actions, er[r].value.actions, a);
    }
  }

  /** What is merged under a resource that only the explicit catalog names. */
  lemma NewIsOverride(env: Env, d: Catalog, e: Catalog, r: string, a: string)
    requires Clean(d) && e.resources != Some(Off) && r !in ResourcesOf(d)
    ensures ActionIn(MergedResource(env, ResourcesOf(d), ResourcesOf(e), r), a)
            == match SettingOf(e, r, a)
               case Removed => None
               case Given(x) => Some(x)
               case Unset => DefaultOf(env, d, e, r, a)
  {
    var er := ResourcesOf(e);
    if r in er && er[r].On? {
      var base := GeneratedActions(env, CaptionFor(env, er[r].value.caption, r));
      OverriddenAt(base, er[r].value.actions, a);
      if Overridden(base, er[r].value.actions) == map[] {
        assert a !in Overridden(base, er[r].value.actions);
      }
    }
  }

  /** Explicit entry, else removed at its own or an outer level, else the default. */
  lemma MergeIsOverride(env: Env, d: Catalog, e: Catalog, r: string, a: string)
    requires Clean(d)
    ensures ActionOf(Merge(env, d, e), r, a)
            == match SettingOf(e, r, a)
               case Removed => None
               case Given(x) => Some(x)
               case Unset => DefaultOf(env, d, e, r, a)
  {
    if e.resources != Some(Off) {
      MergedActionOf(env, d, e, r, a);
      if r in ResourcesOf(d) {
        DefaultIsOverride(env, d, e, r, a);
      } else {
        NewIsOverride(env, d, e, r, a);
      }
    }
  }

  /** The access entry is the explicit one, removed by `false`, or the default where the explicit catalog is silent. */
  lemma AccessIsOverride(env: Env, d: Catalog, e: Catalog)
    requires Clean(d)
    ensures var access := Merge(env, d, e).access;
      && (e.access.None? ==> access == d.access)
      && (e.access.Some? && e.access.value.Off? ==> access.None?)
      && (e.access.Some? && e.access.value.On? ==> access == Some(On(e.access.value.value)))
  {
  }

  /** A resource is called what the explicit catalog calls it, else as before, else by its capitalised name. */
  lemma CaptionIsOverride(env: Env, d: Catalog, e: Catalog, r: string)
    requires Clean(d) && r in ResourcesOf(Merge(env, d, e))
    ensures var caption, dr, er := ResourcesOf(Merge(env, d, e))[r].value.caption, ResourcesOf(d), ResourcesOf(e);
      && (r in er && er[r].On? && er[r].value.caption.Some? ==> caption == er[r].value.caption)
      && (r in dr && (r in er && er[r].On? ==> er[r].value.caption.None?) ==> caption == dr[r].value.caption)
      && (r !in dr && r in er && er[r].On? && er[r].value.caption.None? ==> caption == Some(env.capitalize(r)))
  {
    MergedAt(env, ResourcesOf(d), ResourcesOf(e), r);
  }

  /** The catalog generated for an app: one resource of its name, with a captioned copy of each standard action. */
  lemma GeneratedEntries(env: Env, app: string)
    ensures var c, title := GenerateDefault(env, app), env.capitalize(env.unscore(app));
      && ResourcesOf(c).Keys == {app} && ResourcesOf(c)[app].On? && ResourcesOf(c)[app].value.caption == Some(title)
      && c.access == Some(On(env.access.(caption := env.access.caption + " " + env.lower(title))))
      && forall a :: ActionOf(c, app, a)
                     == if a in env.crud
                        then Some(env.crud[a].(caption := env.crud[a].caption + " " + env.lower(title)))
                        else None
  {
  }

  /** An action that an explicit resource of its own leaves unset is the standard one, captioned for that resource. */
  lemma UnsetIsGenerated(env: Env, d: Catalog, e: Catalog, r: string, a: string)
    requires Clean(d) && r !in ResourcesOf(d) && r in ResourcesOf(e) && ResourcesOf(e)[r].On?
    requires a !in ResourcesOf(e)[r].value.actions && a in env.crud
    ensures var declared := ResourcesOf(e)[r].value.caption;
            var title := if declared.Some? then declared.value else env.capitalize(r);
            ActionOf(Merge(env, d, e), r, a)
            == Some(env.crud[a].(caption := env.crud[a].caption + " " + env.lower(title)))
  {
    MergeIsOverride(env, d, e, r, a);
  }

  /** Which resources are left: kept defaults, and explicit ones that still have an action. */
  lemma MergeKeeps(env: Env, d: Catalog, e: Catalog, r: string)
    requires Clean(d)
    ensures r in ResourcesOf(Merge(env, d, e)) <==>
            e.resources != Some(Off) && (r in ResourcesOf(e) ==> ResourcesOf(e)[r].On?)
            && (r in ResourcesOf(d) || exists a :: ActionOf(Merge(env, d, e), r, a).Some?)
  {
    var dr, er := ResourcesOf(d), ResourcesOf(e);
    var m := ResourcesOf(Merge(env, d, e));
    if r in m && r !in dr {
      var actions := m[r].value.actions;
      var a :| a in actions;
      assert actions[a].On?;
      assert ActionOf(Merge(env, d, e), r, a).Some?;
    }
  }

  predicate CleanResource(x: Resource) {
    x.caption.Some? && forall a :: a in x.actions ==> x.actions[a].On?
  }

  lemma MergedResourceIsClean(env: Env, d: Resources, e: Resources, r: string)
    requires forall k :: k in d ==> d[k].On? && d[k].value.caption.Some?
    requires forall k :: k in d ==> CleanResource(d[k].value)
    requires MergedResource(env, d, e, r).Some?
    ensures CleanResource(MergedResource(env, d, e, r).value)
  {
  }

  /** No `false` survives, so a merged catalog can serve as defaults again. */
  lemma MergeIsClean(env: Env, d: Catalog, e: Catalog)
    requires Clean(d)
    ensures Clean(Merge(env, d, e))
  {
    var dr, er := ResourcesOf(d), ResourcesOf(e);
    assert forall k :: k in dr ==> dr[k].On? && CleanResource(dr[k].value);
    var m := MergedResources(env, dr, er);
    forall r | r in m ensures m[r].On? && CleanResource(m[r].value) {
      MergedResourceIsClean(env, dr, er, r);
    }
  }

  lemma GeneratedIsClean(env: Env, app: string)
    ensures Clean(GenerateDefault(env, app))
  {
  }

  /** A second merge finds the first one's resource, or none, and makes the same of it. */
  lemma MergedTwice(env: Env, dr: Resources, er: Resources, mr: Resources, r: string)
    requires forall k :: k in dr ==> dr[k].On? && dr[k].value.caption.Some?
    requires forall k :: k in mr ==> mr[k].On? && mr[k].value.caption.Some?
    requires var kept := MergedResource(env, dr, er, r);
             (r in mr <==> kept.Some?) && (r in mr ==> mr[r] == On(kept.value))
    ensures MergedResource(env, mr, er, r) == MergedResource(env, dr, er, r)
  {
    if r in er && er[r].On? {
      var over := er[r].value.actions;
      if r in dr {
        OverriddenTwice(dr[r].value.actions, over);
      } else {
        OverriddenTwice(GeneratedActions(env, CaptionFor(env, er[r].value.caption, r)), over);
      }
    }
  }

  lemma MergedAt(env: Env, d: Resources, e: Resources, r: string)
    requires forall k :: k in d ==> d[k].On? && d[k].value.caption.Some?
    ensures r in MergedResources(env, d, e) <==> MergedResource(env, d, e, r).Some?
    ensures r in MergedResources(env, d, e) ==> MergedResources(env, d, e)[r] == On(MergedResource(env, d, e, r).value)
  {
    assert MergedResource(env, d, e, r).Some? ==> r in d.Keys + e.Keys;
  }

  lemma MergeResourcesTwice(env: Env, dr: Resources, er: Resources, mr: Resources)
    requires forall k :: k in dr ==> dr[k].On? && dr[k].value.caption.Some?
    requires forall k :: k in mr ==> mr[k].On? && mr[k].value.caption.Some?
    requires mr == MergedResources(env, dr, er)
    ensures MergedResources(env, mr, er) == mr
  {
    forall r ensures r in MergedResources(env, mr, er) <==> r in mr
      ensures r in mr ==> MergedResources(env, mr, er)[r] == mr[r]
    {
      MergedAt(env, dr, er, r);
      MergedTwice(env, dr, er, mr, r);
      MergedAt(env, mr, er, r);
    }
  }

  /** Applying the same explicit catalog again changes nothing. */
  lemma MergeIdempotent(env: Env, d: Catalog, e: Catalog)
    requires Clean(d)
    ensures Clean(Merge(env, d, e)) && Merge(env, Merge(env, d, e), e) == Merge(env, d, e)
  {
    MergeIsClean(env, d, e);
    if e.resources != Some(Off) {
      MergeResourcesTwice(env, ResourcesOf(d), ResourcesOf(e), ResourcesOf(Merge(env, d, e)));
    }
  }

  lemma OverriddenTwice(base: map<string, Switch<Action>>, over: map<string, Switch<Action>>)
    ensures Overridden(Overridden(base, over), over) == Overridden(base, over)
  {
  }
}
