/** From effective catalogs to the registry of codenames: traversal, validation, flattening and default grants. */
module Permissions {
  import opened Wrappers
  import opened Catalog

  /** Where an entry stands in a catalog. */
  datatype Path = AccessPath | ActionPath(resource: string, action: string)

  /** An app label with its effective catalog. */
  datatype App = App(name: string, catalog: Catalog)

  type Registry = map<string, Action>

  function ActionAt(c: Catalog, p: Path): Option<Action> {
    match p
    case AccessPath => if c.access.Some? && c.access.value.On? then Some(c.access.value.value) else None
    case ActionPath(r, a) => ActionOf(c, r, a)
  }

  /** The actions switched on in one resource. */
  function EnabledActions(c: Catalog, r: string): set<string> {
    if r in ResourcesOf(c) && ResourcesOf(c)[r].On? then
      set a | a in ResourcesOf(c)[r].value.actions && ResourcesOf(c)[r].value.actions[a].On?
    else {}
  }

  /** The enabled entries of a catalog. */
  ghost function Paths(c: Catalog): (ps: set<Path>)
    ensures forall p :: p in ps <==> ActionAt(c, p).Some?
  {
    (if ActionAt(c, AccessPath).Some? then {AccessPath} else {})
    + set r, a | r in ResourcesOf(c) && a in EnabledActions(c, r) :: ActionPath(r, a)
  }

  function Codename(app: string, p: Path): string {
    match p
    case AccessPath => app + ".access"
    case ActionPath(r, a) => app + "." + r + "." + a
  }

  /** The parts between dots. */
  function Dotted(s: string): (parts: seq<string>)
    ensures |parts| >= 1
  {
    if s == "" then [""]
    else
      var rest := Dotted(s[1..]);
      if s[0] == '.' then [""] + rest else [[s[0]] + rest[0]] + rest[1..]
  }

  lemma {:induction false} DottedFirst(a: string, s: string)
    requires '.' !in a
    ensures Dotted(a) == [a] && Dotted(a + "." + s) == [a] + Dotted(s)
  {
    if a == "" {
      assert (a + "." + s)[1..] == s;
    } else {
      DottedFirst(a[1..], s);
      assert a[0] in a && a == [a[0]] + a[1..] && (a + "." + s)[1..] == a[1..] + "." + s;
    }
  }

  /** A codename of dotless names reads back as the app, and the resource and action or the word access. */
  lemma CodenameReadsBack(app: string, p: Path)
    requires '.' !in app && (p.ActionPath? ==> '.' !in p.resource && '.' !in p.action)
    ensures Dotted(Codename(app, p)) == [app] + match p case AccessPath => ["access"] case ActionPath(r, a) => [r, a]
  {
    match p
    case AccessPath =>
      assert Codename(app, p) == app + "." + "access";
      DottedFirst(app, "access");
      DottedFirst("access", "");
    case ActionPath(r, a) =>
      assert Codename(app, p) == app + "." + (r + "." + a);
      DottedFirst(app, r + "." + a);
      DottedFirst(r, a);
      DottedFirst(a, "");
  }

  ghost function Names(app: string, ps: set<Path>): set<string> {
    set p | p in ps :: Codename(app, p)
  }

  /** The enabled entries of the first `n` apps, each with the place of its app, and their codenames. */
  ghost function Entries(apps: seq<App>, n: nat): set<(nat, Path)>
    requires n <= |apps|
  {
    set i: nat, p | i < n && p in Paths(apps[i].catalog) :: (i, p)
  }

  ghost function Codenames(apps: seq<App>, n: nat): set<string>
    requires n <= |apps|
  {
    set i, p | 0 <= i < n && p in Paths(apps[i].catalog) :: Codename(apps[i].name, p)
  }

  // ---- The traversal that validation and flattening share ----

  ghost function PathSet(es: seq<(Path, Action)>): set<Path> {
    set i | 0 <= i < |es| :: es[i].0
  }

  /** `es` holds entries of `c`, each once. */
  ghost predicate Lists(es: seq<(Path, Action)>, c: Catalog) {
    && (forall i :: 0 <= i < |es| ==> ActionAt(c, es[i].0) == Some(es[i].1))
    && (forall i, j :: 0 <= i < j < |es| ==> es[i].0 != es[j].0)
  }

  method EnabledEntries(c: Catalog) returns (es: seq<(Path, Action)>)
    ensures Lists(es, c) && PathSet(es) == Paths(c)
  {
    es := [];
    if c.access.Some? && c.access.value.On? {
      es := Append([], c, AccessPath, c.access.value.value);
    }
    var resources := ResourcesOf(c);
    var todo := resources.Keys;
    while todo != {}
      invariant todo <= resources.Keys && Lists(es, c)
      invariant forall p :: p in PathSet(es) <==> p in Paths(c) && (p.ActionPath? ==> p.resource !in todo)
      decreases todo
    {
      var r :| r in todo;
      if resources[r].On? {
        var actions := resources[r].value.actions;
        var left := actions.Keys;
        while left != {}
          invariant left <= actions.Keys && Lists(es, c)
          invariant forall p :: p in PathSet(es) <==>
            p in Paths(c) && (p.ActionPath? ==> p.resource !in todo || (p.resource == r && p.action !in left))
          decreases left
        {
          var a :| a in left;
          if actions[a].On? {
            es := Append(es, c, ActionPath(r, a), actions[a].value);
          }
          left := left - {a};
        }
      }
      todo := todo - {r};
    }
  }

  method Append(es: seq<(Path, Action)>, c: Catalog, p: Path, x: Action) returns (longer: seq<(Path, Action)>)
    requires Lists(es, c) && p !in PathSet(es) && ActionAt(c, p) == Some(x)
    ensures Lists(longer, c) && PathSet(longer) == PathSet(es) + {p}
  {
    longer := es + [(p, x)];
    assert forall i :: 0 <= i < |es| ==> es[i].0 in PathSet(es) && longer[i] == es[i];
    assert longer[|es|].0 == p;
  }

  // ---- Uniqueness ----

  /** A codename seen again, in which app, and where it was first. */
  datatype Duplicate = Duplicate(codename: string, app: string, first: string)

  datatype Check = Check(seen: map<string, string>, errors: seq<Duplicate>)

  /** One codename: reported if it was seen before, remembered otherwise. */
  function CheckName(app: string, name: string, k: Check): Check {
    if name in k.seen then k.(errors := k.errors + [Duplicate(name, app, k.seen[name])])
    else k.(seen := k.seen[name := app])
  }

  function CheckNames(app: string, names: seq<string>, n: nat, k: Check): Check
    requires n <= |names|
  {
    if n == 0 then k else CheckName(app, names[n - 1], CheckNames(app, names, n - 1, k))
  }

  /** Codenames remembered and errors reported so far. */
  ghost function Tally(k: Check): nat {
    |k.errors| + |k.seen.Keys|
  }

  lemma CheckNameKeys(app: string, name: string, k: Check)
    ensures CheckName(app, name, k).seen.Keys == k.seen.Keys + {name}
  {
  }

  /** One codename either is new or is one more error. */
  lemma CheckNameCount(app: string, name: string, k: Check)
    ensures Tally(CheckName(app, name, k)) == Tally(k) + 1
  {
    CheckNameKeys(app, name, k);
    if name in k.seen {
      assert k.seen.Keys + {name} == k.seen.Keys;
    }
  }

  lemma {:induction false} CheckNamesKeys(app: string, names: seq<string>, n: nat, k: Check)
    requires n <= |names|
    ensures CheckNames(app, names, n, k).seen.Keys == WithNames(k.seen.Keys, names, n)
  {
    if n > 0 {
      CheckNamesKeys(app, names, n - 1, k);
      CheckNameKeys(app, names[n - 1], CheckNames(app, names, n - 1, k));
    }
  }

  lemma {:induction false} CheckNamesCount(app: string, names: seq<string>, n: nat, k: Check)
    requires n <= |names|
    ensures Tally(CheckNames(app, names, n, k)) == Tally(k) + n
  {
    if n > 0 {
      CheckNamesCount(app, names, n - 1, k);
      CheckNameCount(app, names[n - 1], CheckNames(app, names, n - 1, k));
    }
  }

  method CheckList(app: string, names: seq<string>, k: Check) returns (k': Check)
    ensures k' == CheckNames(app, names, |names|, k)
  {
    k' := k;
    var j := 0;
    while j < |names|
      invariant 0 <= j <= |names| && k' == CheckNames(app, names, j, k)
    {
      if names[j] in k'.seen {
        k' := k'.(errors := k'.errors + [Duplicate(names[j], app, k'.seen[names[j]])]);
      } else {
        k' := k'.(seen := k'.seen[names[j] := app]);
      }
      j := j + 1;
    }
  }

  /** For each app its name and the codenames of its enabled entries. */
  type Declarations = seq<(string, set<string>)>

  ghost function Declared(apps: seq<App>): Declarations {
    seq(|apps|, i requires 0 <= i < |apps| => (apps[i].name, Names(apps[i].name, Paths(apps[i].catalog))))
  }

  /** App `i` has an enabled entry called `name`. */
  ghost predicate Declares(own: Declarations, i: nat, app: string, name: string) {
    i < |own| && own[i].0 == app && name in own[i].1
  }

  /** App `i` is the first that has an enabled entry called `name`. */
  ghost predicate DeclaresFirst(own: Declarations, i: nat, app: string, name: string) {
    Declares(own, i, app, name) && forall j :: 0 <= j < i ==> name !in own[j].1
  }

  /** A codename is remembered with its first app, and every error names that app and an app that has it again. */
  ghost predicate Honest(own: Declarations, n: nat, k: Check) {
    && (forall x :: x in k.seen ==> SeenIn(own, n, k.seen[x], x))
    && (forall e :: e in k.errors ==> Repeats(own, n, e))
  }

  ghost predicate SeenIn(own: Declarations, n: nat, app: string, name: string) {
    exists i :: 0 <= i < n && DeclaresFirst(own, i, app, name)
  }

  ghost predicate Repeats(own: Declarations, n: nat, e: Duplicate) {
    exists i, j :: 0 <= i <= j < n && DeclaresFirst(own, i, e.first, e.codename) && Declares(own, j, e.app, e.codename)
  }

  /** All codenames of the first `n` apps are remembered. */
  ghost predicate Covers(own: Declarations, n: nat, k: Check) {
    n <= |own| && forall i, x :: 0 <= i < n && x in own[i].1 ==> x in k.seen
  }

  lemma CheckNameHonest(own: Declarations, n: nat, name: string, k: Check)
    requires n < |own| && Declares(own, n, own[n].0, name) && Honest(own, n + 1, k) && Covers(own, n, k)
    ensures Honest(own, n + 1, CheckName(own[n].0, name, k)) && Covers(own, n, CheckName(own[n].0, name, k))
  {
    var k' := CheckName(own[n].0, name, k);
    if name in k.seen {
      assert SeenIn(own, n + 1, k.seen[name], name);
      var e := Duplicate(name, own[n].0, k.seen[name]);
      assert Repeats(own, n + 1, e);
      assert k'.errors == k.errors + [e];
    } else {
      assert DeclaresFirst(own, n, own[n].0, name);
      assert SeenIn(own, n + 1, own[n].0, name);
    }
  }

  lemma {:induction false} CheckNamesHonest(own: Declarations, n: nat, names: seq<string>, m: nat, k: Check)
    requires n < |own| && m <= |names| && Honest(own, n + 1, k) && Covers(own, n, k)
    requires forall j :: 0 <= j < m ==> Declares(own, n, own[n].0, names[j])
    ensures Honest(own, n + 1, CheckNames(own[n].0, names, m, k)) && Covers(own, n, CheckNames(own[n].0, names, m, k))
  {
    if m > 0 {
      CheckNamesHonest(own, n, names, m - 1, k);
      CheckNameHonest(own, n, names[m - 1], CheckNames(own[n].0, names, m - 1, k));
    }
  }

  lemma EntriesDeclared(apps: seq<App>, n: nat, es: seq<(Path, Action)>)
    requires n < |apps| && PathSet(es) == Paths(apps[n].catalog)
    ensures forall j :: 0 <= j < |es| ==> Declares(Declared(apps), n, apps[n].name, NameList(apps[n].name, es)[j])
  {
    forall j | 0 <= j < |es| ensures Declares(Declared(apps), n, apps[n].name, NameList(apps[n].name, es)[j]) {
      assert es[j].0 in PathSet(es);
    }
  }

  /** One app: every entry either adds a codename or reports one. */
  method CheckApp(apps: seq<App>, i: nat, k: Check) returns (k': Check)
    requires i < |apps| && Checked(apps, i, k)
    ensures Checked(apps, i + 1, k')
  {
    var es := EnabledEntries(apps[i].catalog);
    var names := NameList(apps[i].name, es);
    k' := CheckList(apps[i].name, names, k);
    CheckNamesKeys(apps[i].name, names, |names|, k);
    CheckNamesCount(apps[i].name, names, |names|, k);
    EntriesOfApp(k.seen.Keys, apps[i], es);
    EntriesDeclared(apps, i, es);
    HonestLonger(Declared(apps), i, k);
    AllCovered(apps, i, k);
    CheckNamesHonest(Declared(apps), i, names, |names|, k);
    CheckedNext(apps, i, k, k');
  }

  lemma AllCovered(apps: seq<App>, n: nat, k: Check)
    requires n <= |apps| && k.seen.Keys == Codenames(apps, n)
    ensures Covers(Declared(apps), n, k)
  {
    forall i, x | 0 <= i < n && x in Declared(apps)[i].1 ensures x in k.seen {
      var p :| p in Paths(apps[i].catalog) && Codename(apps[i].name, p) == x;
      assert Codename(apps[i].name, p) in Codenames(apps, n);
    }
  }

  lemma HonestLonger(own: Declarations, n: nat, k: Check)
    requires Honest(own, n, k)
    ensures Honest(own, n + 1, k)
  {
    forall x | x in k.seen ensures SeenIn(own, n + 1, k.seen[x], x) {
      assert SeenIn(own, n, k.seen[x], x);
    }
    forall e | e in k.errors ensures Repeats(own, n + 1, e) {
      assert Repeats(own, n, e);
    }
  }

  /** The check after the first `i` apps: every entry of theirs is remembered or reported. */
  ghost predicate Checked(apps: seq<App>, i: nat, k: Check)
    requires i <= |apps|
  {
    Honest(Declared(apps), i, k) && k.seen.Keys == Codenames(apps, i) && Tally(k) == |Entries(apps, i)|
  }

  ghost function Placed(n: nat, ps: set<Path>): set<(nat, Path)> {
    set p | p in ps :: (n, p)
  }

  lemma {:induction false} PlacedCount(n: nat, ps: set<Path>)
    ensures |Placed(n, ps)| == |ps|
    decreases ps
  {
    if ps != {} {
      var q :| q in ps;
      PlacedCount(n, ps - {q});
      assert Placed(n, ps) == Placed(n, ps - {q}) + {(n, q)};
    }
  }

  /** The codenames and the number of entries of one more app. */
  lemma NextCodenames(apps: seq<App>, n: nat)
    requires n < |apps|
    ensures Codenames(apps, n + 1) == Codenames(apps, n) + Names(apps[n].name, Paths(apps[n].catalog))
  {
  }

  lemma EntriesGrow(apps: seq<App>, n: nat)
    requires n < |apps|
    ensures Entries(apps, n + 1) == Entries(apps, n) + Placed(n, Paths(apps[n].catalog))
    ensures Entries(apps, n) !! Placed(n, Paths(apps[n].catalog))
  {
  }

  lemma DisjointCount<T>(a: set<T>, b: set<T>)
    requires a !! b
    ensures |a + b| == |a| + |b|
  {
  }

  lemma NextEntries(apps: seq<App>, n: nat)
    requires n < |apps|
    ensures |Entries(apps, n + 1)| == |Entries(apps, n)| + |Paths(apps[n].catalog)|
  {
    EntriesGrow(apps, n);
    PlacedCount(n, Paths(apps[n].catalog));
    DisjointCount(Entries(apps, n), Placed(n, Paths(apps[n].catalog)));
  }

  lemma CheckedNone(apps: seq<App>)
    ensures Checked(apps, 0, Check(map[], []))
  {
    assert Codenames(apps, 0) == {} && Entries(apps, 0) == {};
  }

  lemma CheckedNext(apps: seq<App>, i: nat, k: Check, k': Check)
    requires i < |apps| && Checked(apps, i, k) && Honest(Declared(apps), i + 1, k')
    requires k'.seen.Keys == k.seen.Keys + Names(apps[i].name, Paths(apps[i].catalog))
    requires Tally(k') == Tally(k) + |Paths(apps[i].catalog)|
    ensures Checked(apps, i + 1, k')
  {
    NextCodenames(apps, i);
    NextEntries(apps, i);
  }

  lemma CheckedAll(apps: seq<App>, k: Check)
    requires Checked(apps, |apps|, k)
    ensures |k.errors| == |Entries(apps, |apps|)| - |Codenames(apps, |apps|)|
    ensures forall e :: e in k.errors ==> Repeats(Declared(apps), |apps|, e)
  {
  }

  /** The errors count exactly the entries that flattening loses, and each names the first app that has its codename. */
  method ValidateUniqueness(apps: seq<App>) returns (errors: seq<Duplicate>)
    ensures |errors| == |Entries(apps, |apps|)| - |Codenames(apps, |apps|)|
    ensures forall e :: e in errors ==> Repeats(Declared(apps), |apps|, e)
  {
    var k := Check(map[], []);
    CheckedNone(apps);
    for i := 0 to |apps|
      invariant Checked(apps, i, k)
    {
      k := CheckApp(apps, i, k);
    }
    CheckedAll(apps, k);
    return k.errors;
  }

  lemma PathSetGrows(es: seq<(Path, Action)>, j: nat)
    requires j < |es|
    ensures PathSet(es[..j + 1]) == PathSet(es[..j]) + {es[j].0}
  {
    assert forall i :: 0 <= i < j ==> es[..j + 1][i] == es[..j][i];
    assert es[..j + 1][j] == es[j];
  }

  function NameList(app: string, es: seq<(Path, Action)>): seq<string> {
    seq(|es|, i requires 0 <= i < |es| => Codename(app, es[i].0))
  }

  ghost function WithNames(known: set<string>, names: seq<string>, n: nat): set<string>
    requires n <= |names|
  {
    known + set j | 0 <= j < n :: names[j]
  }

  lemma WithNamesAre(known: set<string>, app: string, es: seq<(Path, Action)>)
    ensures WithNames(known, NameList(app, es), |es|) == known + Names(app, PathSet(es))
  {
    var names := NameList(app, es);
    forall j | 0 <= j < |es| ensures names[j] in Names(app, PathSet(es)) {
      assert es[j].0 in PathSet(es);
    }
    forall x | x in Names(app, PathSet(es)) ensures exists j :: 0 <= j < |es| && names[j] == x {
      var j :| 0 <= j < |es| && Codename(app, es[j].0) == x;
      assert names[j] == x;
    }
  }

  /** A listing of a catalog names each codename, and has one item for each entry. */
  lemma EntriesOfApp(known: set<string>, app: App, es: seq<(Path, Action)>)
    requires Lists(es, app.catalog) && PathSet(es) == Paths(app.catalog)
    ensures WithNames(known, NameList(app.name, es), |es|) == known + Names(app.name, Paths(app.catalog))
    ensures |es| == |Paths(app.catalog)|
  {
    WithNamesAre(known, app.name, es);
    ListsCount(es, app.catalog);
  }

  lemma {:induction false} ListsCount(es: seq<(Path, Action)>, c: Catalog)
    requires Lists(es, c)
    ensures |PathSet(es)| == |es|
  {
    if es != [] {
      var last := |es| - 1;
      ListsCount(es[..last], c);
      PathSetGrows(es, last);
      assert es[..last + 1] == es;
      assert es[last].0 !in PathSet(es[..last]);
    }
  }

  /** Different entries have different codenames. */
  ghost predicate AllDistinct(apps: seq<App>) {
    forall i, p, j, q :: && 0 <= i < |apps| && 0 <= j < |apps|
                         && p in Paths(apps[i].catalog) && q in Paths(apps[j].catalog)
                         && Codename(apps[i].name, p) == Codename(apps[j].name, q)
      ==> i == j && p == q
  }

  ghost function CodenamesOf(names: seq<string>, es: set<(nat, Path)>): set<string>
    requires forall e :: e in es ==> e.0 < |names|
  {
    set e | e in es :: Codename(names[e.0], e.1)
  }

  ghost predicate CodenamesDiffer(names: seq<string>, es: set<(nat, Path)>)
    requires forall e :: e in es ==> e.0 < |names|
  {
    forall e, f :: e in es && f in es && Codename(names[e.0], e.1) == Codename(names[f.0], f.1) ==> e == f
  }

  lemma RepeatedName(names: seq<string>, es: set<(nat, Path)>, e: (nat, Path))
    requires (forall f :: f in es ==> f.0 < |names|) && e in es
    requires Codename(names[e.0], e.1) in CodenamesOf(names, es - {e})
    ensures CodenamesOf(names, es) == CodenamesOf(names, es - {e}) && !CodenamesDiffer(names, es)
  {
    var f :| f in es - {e} && Codename(names[f.0], f.1) == Codename(names[e.0], e.1);
    assert f in es && f != e;
  }

  lemma NewName(names: seq<string>, es: set<(nat, Path)>, e: (nat, Path))
    requires (forall f :: f in es ==> f.0 < |names|) && e in es
    requires Codename(names[e.0], e.1) !in CodenamesOf(names, es - {e})
    ensures CodenamesOf(names, es) == CodenamesOf(names, es - {e}) + {Codename(names[e.0], e.1)}
    ensures CodenamesDiffer(names, es) <==> CodenamesDiffer(names, es - {e})
  {
    assert forall f :: f in es - {e} ==> Codename(names[f.0], f.1) in CodenamesOf(names, es - {e});
  }

  /** Entries have at most as many codenames, and as many only without a repetition. */
  lemma {:induction false} CodenamesCount(names: seq<string>, es: set<(nat, Path)>)
    requires forall e :: e in es ==> e.0 < |names|
    ensures |CodenamesOf(names, es)| <= |es|
    ensures |CodenamesOf(names, es)| == |es| <==> CodenamesDiffer(names, es)
    decreases es
  {
    if es != {} {
      var e :| e in es;
      CodenamesCount(names, es - {e});
      if Codename(names[e.0], e.1) in CodenamesOf(names, es - {e}) {
        RepeatedName(names, es, e);
      } else {
        NewName(names, es, e);
      }
    }
  }

  ghost function Labels(apps: seq<App>): seq<string> {
    seq(|apps|, i requires 0 <= i < |apps| => apps[i].name)
  }

  lemma DistinctIff(apps: seq<App>)
    ensures CodenamesDiffer(Labels(apps), Entries(apps, |apps|)) <==> AllDistinct(apps)
  {
    var es := Entries(apps, |apps|);
    if CodenamesDiffer(Labels(apps), es) {
      forall i, p, j, q | && 0 <= i < |apps| && 0 <= j < |apps|
                          && p in Paths(apps[i].catalog) && q in Paths(apps[j].catalog)
                          && Codename(apps[i].name, p) == Codename(apps[j].name, q)
        ensures i == j && p == q
      {
        assert (i, p) in es && (j, q) in es;
      }
    }
  }

  /** No error is reported exactly when no two enabled entries share a codename. */
  lemma CountsAgreeIffDistinct(apps: seq<App>)
    ensures |Codenames(apps, |apps|)| <= |Entries(apps, |apps|)|
    ensures |Codenames(apps, |apps|)| == |Entries(apps, |apps|)| <==> AllDistinct(apps)
  {
    var es := Entries(apps, |apps|);
    assert Codenames(apps, |apps|) == CodenamesOf(Labels(apps), es) by {
      forall i: nat, p | i < |apps| && p in Paths(apps[i].catalog)
        ensures Codename(apps[i].name, p) in CodenamesOf(Labels(apps), es)
      {
        assert (i, p) in es;
      }
    }
    CodenamesCount(Labels(apps), es);
    DistinctIff(apps);
  }

  // ---- Flattening ----

  /** `registry` has exactly the codenames of `apps`, each with an entry of the last app that has it. */
  ghost predicate Flattens(apps: seq<App>, registry: Registry) {
    registry.Keys == Codenames(apps, |apps|) && AllIndexed(apps, |apps|, registry)
  }

  ghost predicate AllIndexed(apps: seq<App>, n: nat, registry: Registry)
    requires n <= |apps|
  {
    forall k :: k in registry ==> Indexed(apps, n, k, registry[k])
  }

  /** `x` is an entry called `k` of one of the first `n` apps, and no later one of them has that codename. */
  ghost predicate Indexed(apps: seq<App>, n: nat, k: string, x: Action)
    requires n <= |apps|
  {
    exists i, p :: 0 <= i < n && EntryAt(apps[i], p, k, x) && LastWith(apps, i, n, k)
  }

  ghost predicate EntryAt(app: App, p: Path, k: string, x: Action) {
    Codename(app.name, p) == k && ActionAt(app.catalog, p) == Some(x)
  }

  ghost predicate LastWith(apps: seq<App>, i: int, n: nat, k: string)
    requires n <= |apps|
  {
    forall j :: 0 <= j && i < j < n ==> k !in Names(apps[j].name, Paths(apps[j].catalog))
  }

  function FlattenNames(names: seq<string>, es: seq<(Path, Action)>, n: nat, registry: Registry): Registry
    requires n <= |names| == |es|
  {
    if n == 0 then registry else FlattenNames(names, es, n - 1, registry)[names[n - 1] := es[n - 1].1]
  }

  lemma {:induction false} FlattenNamesKeys(names: seq<string>, es: seq<(Path, Action)>, n: nat, registry: Registry)
    requires n <= |names| == |es|
    ensures FlattenNames(names, es, n, registry).Keys == WithNames(registry.Keys, names, n)
  {
    if n > 0 {
      FlattenNamesKeys(names, es, n - 1, registry);
    }
  }

  /** A listed codename has the entry of one of its listings; any other has what it had. */
  lemma {:induction false} FlattenNamesAt(names: seq<string>, es: seq<(Path, Action)>, n: nat, registry: Registry,
                                          k: string)
    requires n <= |names| == |es| && k in FlattenNames(names, es, n, registry)
    ensures k in names[..n] ==>
      exists j :: 0 <= j < n && names[j] == k && FlattenNames(names, es, n, registry)[k] == es[j].1
    ensures k !in names[..n] ==> k in registry && FlattenNames(names, es, n, registry)[k] == registry[k]
  {
    if n > 0 {
      assert names[..n] == names[..n - 1] + [names[n - 1]];
      if names[n - 1] != k {
        FlattenNamesAt(names, es, n - 1, registry, k);
      }
    }
  }

  lemma NameListIff(app: App, es: seq<(Path, Action)>, k: string)
    requires PathSet(es) == Paths(app.catalog)
    ensures k in NameList(app.name, es) <==> k in Names(app.name, Paths(app.catalog))
  {
    var names := NameList(app.name, es);
    if k in names {
      var j :| 0 <= j < |names| && names[j] == k;
      assert es[j].0 in PathSet(es);
    }
    if k in Names(app.name, Paths(app.catalog)) {
      var p :| p in PathSet(es) && Codename(app.name, p) == k;
      var j :| 0 <= j < |es| && es[j].0 == p;
      assert names[j] == k;
    }
  }

  /** A codename that app `i` has is taken over by it; any other keeps its last app. */
  lemma {:induction false} TakenOver(apps: seq<App>, i: nat, p: Path, k: string, x: Action)
    requires i < |apps| && EntryAt(apps[i], p, k, x)
    ensures Indexed(apps, i + 1, k, x)
  {
    assert LastWith(apps, i, i + 1, k);
  }

  lemma {:induction false} NotTakenOver(apps: seq<App>, i: nat, k: string, x: Action)
    requires i < |apps| && Indexed(apps, i, k, x) && k !in Names(apps[i].name, Paths(apps[i].catalog))
    ensures Indexed(apps, i + 1, k, x)
  {
    var h, p :| 0 <= h < i && EntryAt(apps[h], p, k, x) && LastWith(apps, h, i, k);
    assert LastWith(apps, h, i + 1, k);
  }

  lemma {:induction false} FlattenedAt(apps: seq<App>, i: nat, es: seq<(Path, Action)>, registry: Registry, k: string)
    requires i < |apps| && Lists(es, apps[i].catalog) && PathSet(es) == Paths(apps[i].catalog)
    requires k in FlattenNames(NameList(apps[i].name, es), es, |es|, registry)
    requires k in registry ==> Indexed(apps, i, k, registry[k])
    ensures Indexed(apps, i + 1, k, FlattenNames(NameList(apps[i].name, es), es, |es|, registry)[k])
  {
    var names := NameList(apps[i].name, es);
    assert names[..|es|] == names;
    FlattenNamesAt(names, es, |es|, registry, k);
    NameListIff(apps[i], es, k);
    if k in names {
      var j :| 0 <= j < |es| && names[j] == k && FlattenNames(names, es, |es|, registry)[k] == es[j].1;
      TakenOver(apps, i, es[j].0, k, es[j].1);
    } else {
      NotTakenOver(apps, i, k, registry[k]);
    }
  }

  lemma {:induction false} FlattenAppIndexed(apps: seq<App>, i: nat, es: seq<(Path, Action)>, registry: Registry)
    requires i < |apps| && Lists(es, apps[i].catalog) && PathSet(es) == Paths(apps[i].catalog)
    requires AllIndexed(apps, i, registry)
    ensures AllIndexed(apps, i + 1, FlattenNames(NameList(apps[i].name, es), es, |es|, registry))
  {
    var registry' := FlattenNames(NameList(apps[i].name, es), es, |es|, registry);
    forall k | k in registry' ensures Indexed(apps, i + 1, k, registry'[k]) {
      FlattenedAt(apps, i, es, registry, k);
    }
  }

  method FlattenList(names: seq<string>, es: seq<(Path, Action)>, registry: Registry) returns (registry': Registry)
    requires |names| == |es|
    ensures registry' == FlattenNames(names, es, |es|, registry)
  {
    registry' := registry;
    var j := 0;
    while j < |es|
      invariant 0 <= j <= |es| && registry' == FlattenNames(names, es, j, registry)
    {
      registry' := registry'[names[j] := es[j].1];
      j := j + 1;
    }
  }

  method FlattenApp(apps: seq<App>, i: nat, registry: Registry) returns (registry': Registry)
    requires i < |apps| && AllIndexed(apps, i, registry)
    ensures registry'.Keys == registry.Keys + Names(apps[i].name, Paths(apps[i].catalog))
    ensures AllIndexed(apps, i + 1, registry')
  {
    var es := EnabledEntries(apps[i].catalog);
    var names := NameList(apps[i].name, es);
    registry' := FlattenList(names, es, registry);
    FlattenNamesKeys(names, es, |es|, registry);
    FlattenAppIndexed(apps, i, es, registry);
    EntriesOfApp(registry.Keys, apps[i], es);
  }

  method GetMergedCatalog(apps: seq<App>) returns (registry: Registry)
    ensures Flattens(apps, registry)
  {
    registry := map[];
    assert Codenames(apps, 0) == {};
    for i := 0 to |apps|
      invariant registry.Keys == Codenames(apps, i) && AllIndexed(apps, i, registry)
    {
      registry := FlattenApp(apps, i, registry);
      NextCodenames(apps, i);
    }
  }

  /** Flattening drops exactly as many entries as the uniqueness check reports. */
  lemma FlatteningLoses(apps: seq<App>, registry: Registry)
    requires Flattens(apps, registry)
    ensures |registry| == |Codenames(apps, |apps|)|
    ensures |registry| == |Entries(apps, |apps|)| <==> AllDistinct(apps)
  {
    assert |registry| == |registry.Keys|;
    CountsAgreeIffDistinct(apps);
  }

  // ---- Business rules ----

  function Granted(x: Action, role: string): bool {
    role in x.roles && x.roles[role] == 1
  }

  /** An action entry that lets viewers write. */
  predicate BreaksRule(c: Catalog, p: Path) {
    && p.ActionPath? && ActionAt(c, p).Some? && !ActionAt(c, p).value.readonly
    && "viewer" in ActionAt(c, p).value.roles && ActionAt(c, p).value.roles["viewer"] == 1
  }

  method ValidateBusinessRules(app: App) returns (errors: seq<string>)
    ensures errors == [] <==> forall p :: !BreaksRule(app.catalog, p)
    ensures forall e :: e in errors <==> exists p :: BreaksRule(app.catalog, p) && Codename(app.name, p) == e
  {
    errors := [];
    var es := EnabledEntries(app.catalog);
    var i := 0;
    while i < |es|
      invariant 0 <= i <= |es|
      invariant errors == [] <==> forall j :: 0 <= j < i ==> !BreaksRule(app.catalog, es[j].0)
      invariant forall e :: e in errors <==>
        exists j :: 0 <= j < i && BreaksRule(app.catalog, es[j].0) && Codename(app.name, es[j].0) == e
    {
      var (p, x) := es[i];
      if p.ActionPath? && !x.readonly && "viewer" in x.roles && x.roles["viewer"] == 1 {
        errors := errors + [Codename(app.name, p)];
      }
      i := i + 1;
    }
    forall p | BreaksRule(app.catalog, p) ensures exists j :: 0 <= j < |es| && es[j].0 == p {
      assert p in PathSet(es);
    }
  }

  // ---- Default grants ----

  const DEFAULT_ROLES := ["owner", "admin", "member", "viewer"]

  function DefaultGrants(registry: Registry, role: string): map<string, int> {
    map c | c in registry && Granted(registry[c], role) :: 1
  }

  type Grants = map<string, map<string, int>>

  /** The grants once the first `n` roles have been considered for one codename. */
  function Granting(roles: seq<string>, grants: Grants, c: string, x: Action, n: nat): (r: Grants)
    requires n <= |roles| && forall role :: role in roles ==> role in grants
    ensures r.Keys == grants.Keys
  {
    if n == 0 then grants
    else
      var before, role := Granting(roles, grants, c, x, n - 1), roles[n - 1];
      if Granted(x, role) then before[role := before[role][c := 1]] else before
  }

  lemma {:induction false} GrantingIs(roles: seq<string>, grants: Grants, c: string, x: Action, n: nat, role: string)
    requires n <= |roles| && role in grants && forall r :: r in roles ==> r in grants
    ensures Granting(roles, grants, c, x, n)[role]
            == if role in roles[..n] && Granted(x, role) then grants[role][c := 1] else grants[role]
  {
    if n > 0 {
      GrantingIs(roles, grants, c, x, n - 1, role);
      assert roles[..n] == roles[..n - 1] + [roles[n - 1]];
    }
  }

  /** One codename: granted to each of these roles whose default is 1. */
  method GrantCodename(roles: seq<string>, grants: Grants, c: string, x: Action) returns (grants': Grants)
    requires forall role :: role in roles <==> role in grants
    ensures grants' == map role | role in grants :: if Granted(x, role) then grants[role][c := 1] else grants[role]
  {
    grants' := grants;
    var i := 0;
    while i < |roles|
      invariant 0 <= i <= |roles| && grants' == Granting(roles, grants, c, x, i)
    {
      var role := roles[i];
      if role in x.roles && x.roles[role] == 1 {
        grants' := grants'[role := grants'[role][c := 1]];
      }
      i := i + 1;
    }
    GrantingAll(roles, grants, c, x);
  }

  lemma GrantingAll(roles: seq<string>, grants: Grants, c: string, x: Action)
    requires forall role :: role in roles <==> role in grants
    ensures Granting(roles, grants, c, x, |roles|)
            == map role | role in grants :: if Granted(x, role) then grants[role][c := 1] else grants[role]
  {
    assert roles[..|roles|] == roles;
    forall role | role in grants
      ensures Granting(roles, grants, c, x, |roles|)[role]
              == if Granted(x, role) then grants[role][c := 1] else grants[role]
    {
      GrantingIs(roles, grants, c, x, |roles|, role);
    }
  }

  method GetDefaultRolePermissions(registry: Registry) returns (grants: map<string, map<string, int>>)
    ensures grants == map role | role in DEFAULT_ROLES :: DefaultGrants(registry, role)
    ensures forall role, c :: role in ["owner", "admin", "member", "viewer"] ==>
      && role in grants
      && (c in grants[role] <==> c in registry && role in registry[c].roles && registry[c].roles[role] == 1)
      && (c in grants[role] ==> grants[role][c] == 1)
  {
    grants := map role | role in DEFAULT_ROLES :: map[];
    var todo := registry.Keys;
    while todo != {}
      invariant todo <= registry.Keys && grants.Keys == set role | role in DEFAULT_ROLES
      invariant forall role :: role in grants ==> grants[role] == DefaultGrants(registry - todo, role)
      decreases todo
    {
      var c :| c in todo;
      grants := GrantCodename(DEFAULT_ROLES, grants, c, registry[c]);
      todo := todo - {c};
    }
    assert registry - {} == registry;
  }
}
