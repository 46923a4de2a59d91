/** Nested representation of foreign keys over an object graph that may be cyclic. */
module Representation {
  import opened Wrappers

  /** A class name and a primary key. */
  type Identity = (string, string)

  /** What an attribute or a hook yields: nothing, plain data, an object of the graph, or a list. */
  datatype Value = Null | Scalar(text: string) | Object(id: nat) | Many(values: seq<Value>)

  /** An object: its class, its key if it has one, its caption, its attributes, and what its methods return. */
  datatype Node = Node(
    cls: string,
    isModel: bool,
    pk: Option<string>,
    caption: string,
    attrs: map<string, Value>,
    methods: map<string, Value>)

  /** The objects, and the `fk_representation_fields` of the classes that declare them. */
  datatype Graph = Graph(nodes: map<nat, Node>, classFields: map<string, seq<string>>)

  /** The representation hooks of the parent serializer, by method name. */
  type Hooks = map<string, nat -> Value>

  // ---- Resolving one field ----

  /** Where the first double underscore at or after `i` starts. */
  function FirstSep(s: string, i: nat): (r: Option<nat>)
    requires i <= |s|
    ensures r.Some? ==> i <= r.value && r.value + 2 <= |s|
    decreases |s| - i
  {
    if i + 1 >= |s| then None
    else if s[i] == '_' && s[i + 1] == '_' then Some(i)
    else FirstSep(s, i + 1)
  }

  function HookName(field: string): string {
    "get_" + field + "_representation"
  }

  function Attr(m: map<string, Value>, name: string): Value {
    if name in m then m[name] else Null
  }

  /** The value of a field on an instance; only an object of the graph has attributes or methods. */
  function Resolve(g: Graph, hooks: Hooks, field: string, instance: Value): Value
    decreases |field|
  {
    if instance.Object? && HookName(field) in hooks then hooks[HookName(field)](instance.id)
    else ResolvePath(g, field, instance)
  }

  /** The same below the root call, where the serializer is not consulted. */
  function ResolvePath(g: Graph, field: string, instance: Value): Value
    decreases |field|
  {
    if !instance.Object? || instance.id !in g.nodes then Null else
    var node := g.nodes[instance.id];
    if HookName(field) in node.methods then node.methods[HookName(field)] else
    var sep := FirstSep(field, 0);
    if sep.None? then Attr(node.attrs, field) else
    var head, tail := field[..sep.value], field[sep.value + 2..];
    var next := if "get_" + head in node.methods then node.methods["get_" + head] else Attr(node.attrs, head);
    if next.Null? then Null else ResolvePath(g, tail, next)
  }

  // ---- Representing an instance ----

  /** An output tree. An expansion records whom it expands; that mark is not part of the output. */
  datatype Rep =
    | Fallback(id: string, caption: string)
    | Expanded(who: Option<Identity>, entries: map<string, Out>)

  datatype Out = Plain(value: Value) | Nested(rep: Rep) | Listed(outs: seq<Out>)

  function Who(node: Node): Option<Identity> {
    if node.pk.Some? then Some((node.cls, node.pk.value)) else None
  }

  function Mark(node: Node): set<Identity> {
    if node.pk.Some? then {(node.cls, node.pk.value)} else {}
  }

  function FallbackOf(node: Node): Rep
    requires node.pk.Some?
  {
    Fallback(node.pk.value, node.caption)
  }

  function ClassFields(g: Graph, node: Node): Option<seq<string>> {
    if node.cls in g.classFields then Some(g.classFields[node.cls]) else None
  }

  /** Every model instance has a primary key. */
  predicate Keyed(g: Graph) {
    forall o :: o in g.nodes && g.nodes[o].isModel ==> g.nodes[o].pk.Some?
  }

  predicate IsModel(g: Graph, v: Value) {
    v.Object? && v.id in g.nodes && g.nodes[v.id].isModel
  }

  function Identities(g: Graph): set<Identity> {
    set o | o in g.nodes && g.nodes[o].pk.Some? :: (g.nodes[o].cls, g.nodes[o].pk.value)
  }

  function Represent(g: Graph, hooks: Hooks, o: nat, fields: Option<seq<string>>, visited: set<Identity>): Rep
    requires Keyed(g) && o in g.nodes && (fields.None? ==> g.nodes[o].pk.Some?)
    decreases Identities(g) - visited, if g.nodes[o].pk.Some? then 0 else 2
  {
    var node := g.nodes[o];
    if Mark(node) != {} && Mark(node) <= visited then FallbackOf(node)
    else if fields.None? then FallbackOf(node)
    else
      assert node.pk.Some? ==> (node.cls, node.pk.value) in Identities(g);
      assert Mark(node) == {} ==> visited + Mark(node) == visited;
      Expanded(Who(node), EntriesOf(g, hooks, o, fields.value, visited + Mark(node)))
  }

  function EntriesOf(g: Graph, hooks: Hooks, o: nat, names: seq<string>, visited: set<Identity>): map<string, Out>
    requires Keyed(g)
    decreases Identities(g) - visited, 1, 2
  {
    map f | f in names :: Emit(g, hooks, Resolve(g, hooks, f, Object(o)), visited)
  }

  /** Objects become nested representations, alone or as elements of a list; anything else stays as it is. */
  function Emit(g: Graph, hooks: Hooks, v: Value, visited: set<Identity>): Out
    requires Keyed(g)
    decreases Identities(g) - visited, 1, 1
  {
    if v.Many? then Listed(seq(|v.values|, i requires 0 <= i < |v.values| => EmitOne(g, hooks, v.values[i], visited)))
    else EmitOne(g, hooks, v, visited)
  }

  function EmitOne(g: Graph, hooks: Hooks, v: Value, visited: set<Identity>): Out
    requires Keyed(g)
    decreases Identities(g) - visited, 1, 0
  {
    if IsModel(g, v) then Nested(Represent(g, hooks, v.id, ClassFields(g, g.nodes[v.id]), visited)) else Plain(v)
  }

  /** The entry point: explicit fields if there are any, else those of the class. None is an attribute error. */
  function ToRepresentation(g: Graph, hooks: Hooks, o: nat, explicitFields: seq<string>): Option<Rep>
    requires Keyed(g) && o in g.nodes
  {
    var fields := RootFields(g, o, explicitFields);
    if fields.None? && g.nodes[o].pk.None? then None else Some(Represent(g, hooks, o, fields, {}))
  }

  function RootFields(g: Graph, o: nat, explicitFields: seq<string>): Option<seq<string>>
    requires o in g.nodes
  {
    if explicitFields != [] then Some(explicitFields) else ClassFields(g, g.nodes[o])
  }

  // ---- The loops of the source ----

  method RepresentInstance(g: Graph, hooks: Hooks, o: nat, fields: Option<seq<string>>, visited: set<Identity>)
    returns (r: Rep)
    requires Keyed(g) && o in g.nodes && (fields.None? ==> g.nodes[o].pk.Some?)
    ensures r == Represent(g, hooks, o, fields, visited)
    decreases Identities(g) - visited, if g.nodes[o].pk.Some? then 0 else 2
  {
    var node := g.nodes[o];
    var seen := visited;
    if node.pk.Some? {
      if (node.cls, node.pk.value) in visited {
        return Fallback(node.pk.value, node.caption);
      }
      seen := visited + {(node.cls, node.pk.value)};
      assert (node.cls, node.pk.value) in Identities(g);
    }
    if fields.None? {
      return Fallback(node.pk.value, node.caption);
    }
    assert seen == visited + Mark(node);
    var result := RepresentFields(g, hooks, o, fields.value, seen);
    return Expanded(Who(node), result);
  }

  /** The loop that fills the result. */
  method RepresentFields(g: Graph, hooks: Hooks, o: nat, names: seq<string>, seen: set<Identity>)
    returns (result: map<string, Out>)
    requires Keyed(g)
    ensures result == EntriesOf(g, hooks, o, names, seen)
    decreases Identities(g) - seen, 1, 1
  {
    result := map[];
    var i := 0;
    while i < |names|
      invariant 0 <= i <= |names| && result == EntriesOf(g, hooks, o, names[..i], seen)
    {
      var value := Resolve(g, hooks, names[i], Object(o));
      var out := EmitValue(g, hooks, value, seen);
      result := result[names[i] := out];
      assert names[..i + 1] == names[..i] + [names[i]];
      i := i + 1;
    }
    assert names[..i] == names;
  }

  /** The part of the loop that turns one resolved value into output. */
  method EmitValue(g: Graph, hooks: Hooks, value: Value, seen: set<Identity>) returns (out: Out)
    requires Keyed(g)
    ensures out == Emit(g, hooks, value, seen)
    decreases Identities(g) - seen, 1, 0
  {
    if value.Many? {
      var outs, j := [], 0;
      while j < |value.values|
        invariant 0 <= j <= |value.values| && |outs| == j
        invariant forall k :: 0 <= k < j ==> outs[k] == EmitOne(g, hooks, value.values[k], seen)
      {
        var item := value.values[j];
        if IsModel(g, item) {
          var nested := RepresentInstance(g, hooks, item.id, ClassFields(g, g.nodes[item.id]), seen);
          outs := outs + [Nested(nested)];
        } else {
          outs := outs + [Plain(item)];
        }
        j := j + 1;
      }
      return Listed(outs);
    } else if IsModel(g, value) {
      var nested := RepresentInstance(g, hooks, value.id, ClassFields(g, g.nodes[value.id]), seen);
      return Nested(nested);
    } else {
      return Plain(value);
    }
  }

  // ---- Each identity at most once on a path ----

  /** No path of `rep` expands an identity twice, or one of `above`. */
  predicate OncePerPath(rep: Rep, above: set<Identity>) {
    match rep
    case Fallback(_, _) => true
    case Expanded(who, entries) =>
      var marked := if who.Some? then {who.value} else {};
      marked !! above && forall f :: f in entries ==> OutOncePerPath(entries[f], above + marked)
  }

  predicate OutOncePerPath(out: Out, above: set<Identity>) {
    match out
    case Plain(_) => true
    case Nested(rep) => OncePerPath(rep, above)
    case Listed(outs) => forall i :: 0 <= i < |outs| ==> OutOncePerPath(outs[i], above)
  }

  /** No path of `rep` has more than `n` nested representations. */
  predicate DepthAtMost(rep: Rep, n: int) {
    n >= 1 &&
    match rep
    case Fallback(_, _) => true
    case Expanded(_, entries) => forall f :: f in entries ==> OutDepthAtMost(entries[f], n - 1)
  }

  predicate OutDepthAtMost(out: Out, n: int) {
    match out
    case Plain(_) => true
    case Nested(rep) => DepthAtMost(rep, n)
    case Listed(outs) => forall i :: 0 <= i < |outs| ==> OutDepthAtMost(outs[i], n)
  }

  /** How deep a representation may get: the identities still unvisited, one more, and a keyless root on top. */
  function DepthBound(g: Graph, o: nat, visited: set<Identity>): int
    requires o in g.nodes
  {
    |Identities(g) - visited| + (if g.nodes[o].pk.Some? then 1 else 2)
  }

  lemma {:induction false} RepresentPaths(g: Graph, hooks: Hooks, o: nat, fields: Option<seq<string>>,
                                          visited: set<Identity>)
    requires Keyed(g) && o in g.nodes && (fields.None? ==> g.nodes[o].pk.Some?)
    ensures OncePerPath(Represent(g, hooks, o, fields, visited), visited)
    ensures DepthAtMost(Represent(g, hooks, o, fields, visited), DepthBound(g, o, visited))
    decreases Identities(g) - visited, if g.nodes[o].pk.Some? then 0 else 2
  {
    var node := g.nodes[o];
    var seen := visited + Mark(node);
    if !(Mark(node) != {} && Mark(node) <= visited) && fields.Some? {
      MarkShrinks(g, o, visited);
      var entries := EntriesOf(g, hooks, o, fields.value, seen);
      forall f | f in entries
        ensures OutOncePerPath(entries[f], seen) && OutDepthAtMost(entries[f], |Identities(g) - seen| + 1)
      {
        EmitPaths(g, hooks, Resolve(g, hooks, f, Object(o)), seen);
      }
    }
  }

  /** Expanding an unvisited node uses up its identity, if it has one. */
  lemma MarkShrinks(g: Graph, o: nat, visited: set<Identity>)
    requires o in g.nodes && !(Mark(g.nodes[o]) != {} && Mark(g.nodes[o]) <= visited)
    ensures var seen := visited + Mark(g.nodes[o]);
            if g.nodes[o].pk.Some?
            then && |Identities(g) - seen| == |Identities(g) - visited| - 1
                 && Identities(g) - seen < Identities(g) - visited
            else seen == visited
  {
    var node := g.nodes[o];
    if node.pk.Some? {
      var id := (node.cls, node.pk.value);
      assert id in Identities(g) - visited;
      assert Identities(g) - (visited + {id}) == (Identities(g) - visited) - {id};
    }
  }

  lemma {:induction false} EmitPaths(g: Graph, hooks: Hooks, v: Value, visited: set<Identity>)
    requires Keyed(g)
    ensures OutOncePerPath(Emit(g, hooks, v, visited), visited)
    ensures OutDepthAtMost(Emit(g, hooks, v, visited), |Identities(g) - visited| + 1)
    decreases Identities(g) - visited, 1, 1
  {
    if v.Many? {
      var outs := Emit(g, hooks, v, visited).outs;
      forall i | 0 <= i < |outs|
        ensures OutOncePerPath(outs[i], visited) && OutDepthAtMost(outs[i], |Identities(g) - visited| + 1)
      {
        EmitOnePaths(g, hooks, v.values[i], visited);
        assert outs[i] == EmitOne(g, hooks, v.values[i], visited);
      }
    } else {
      EmitOnePaths(g, hooks, v, visited);
    }
  }

  lemma {:induction false} EmitOnePaths(g: Graph, hooks: Hooks, v: Value, visited: set<Identity>)
    requires Keyed(g)
    ensures OutOncePerPath(EmitOne(g, hooks, v, visited), visited)
    ensures OutDepthAtMost(EmitOne(g, hooks, v, visited), |Identities(g) - visited| + 1)
    decreases Identities(g) - visited, 1, 0
  {
    if IsModel(g, v) {
      RepresentPaths(g, hooks, v.id, ClassFields(g, g.nodes[v.id]), visited);
    }
  }

  /** On every finite graph, cyclic or not: each identity at most once per path, and bounded depth. */
  lemma RepresentationBounded(g: Graph, hooks: Hooks, o: nat, explicitFields: seq<string>)
    requires Keyed(g) && o in g.nodes && ToRepresentation(g, hooks, o, explicitFields).Some?
    ensures var rep := ToRepresentation(g, hooks, o, explicitFields).value;
            OncePerPath(rep, {}) && DepthAtMost(rep, |Identities(g)| + (if g.nodes[o].pk.Some? then 1 else 2))
  {
    RepresentPaths(g, hooks, o, RootFields(g, o, explicitFields), {});
    assert Identities(g) - {} == Identities(g);
  }

  // ---- On acyclic graphs the visited set does nothing ----

  /** The objects that a resolved value leads to. */
  predicate LeadsTo(g: Graph, v: Value, o: nat) {
    o in g.nodes && g.nodes[o].isModel && (v == Object(o) || (v.Many? && Object(o) in v.values))
  }

  /** Every model that the fields of `o` lead to has a rank below `bound`. */
  ghost predicate Below(g: Graph, hooks: Hooks, rank: Identity -> nat, o: nat, fields: Option<seq<string>>, bound: nat)
    requires Keyed(g)
  {
    fields.Some? ==>
      forall f, m :: f in fields.value && LeadsTo(g, Resolve(g, hooks, f, Object(o)), m) ==>
        rank((g.nodes[m].cls, g.nodes[m].pk.value)) < bound
  }

  /** Along the declared fields of every model, ranks of identities strictly decrease. */
  ghost predicate Ranked(g: Graph, hooks: Hooks, rank: Identity -> nat) {
    Keyed(g) && forall o :: o in g.nodes && g.nodes[o].isModel ==>
      Below(g, hooks, rank, o, ClassFields(g, g.nodes[o]), rank((g.nodes[o].cls, g.nodes[o].pk.value)))
  }

  /** Expansion without a visited set. */
  ghost function Naive(g: Graph, hooks: Hooks, rank: Identity -> nat, o: nat, fields: Option<seq<string>>,
                       bound: nat): Rep
    requires Ranked(g, hooks, rank) && o in g.nodes && (fields.None? ==> g.nodes[o].pk.Some?)
    requires Below(g, hooks, rank, o, fields, bound)
    decreases bound, 1
  {
    if fields.None? then FallbackOf(g.nodes[o])
    else Expanded(Who(g.nodes[o]),
           map f | f in fields.value :: NaiveEmit(g, hooks, rank, Resolve(g, hooks, f, Object(o)), bound))
  }

  ghost function NaiveEmit(g: Graph, hooks: Hooks, rank: Identity -> nat, v: Value, bound: nat): Out
    requires Ranked(g, hooks, rank)
    requires forall m :: LeadsTo(g, v, m) ==> rank((g.nodes[m].cls, g.nodes[m].pk.value)) < bound
    decreases bound, 0, 1
  {
    if v.Many? then
      Listed(seq(|v.values|, i requires 0 <= i < |v.values| =>
        assert IsModel(g, v.values[i]) ==> LeadsTo(g, v, v.values[i].id);
        NaiveOne(g, hooks, rank, v.values[i], bound)))
    else
      assert IsModel(g, v) ==> LeadsTo(g, v, v.id);
      NaiveOne(g, hooks, rank, v, bound)
  }

  ghost function NaiveOne(g: Graph, hooks: Hooks, rank: Identity -> nat, v: Value, bound: nat): Out
    requires Ranked(g, hooks, rank)
    requires IsModel(g, v) ==> rank((g.nodes[v.id].cls, g.nodes[v.id].pk.value)) < bound
    decreases bound, 0, 0
  {
    if IsModel(g, v) then
      var node := g.nodes[v.id];
      Nested(Naive(g, hooks, rank, v.id, ClassFields(g, node), rank((node.cls, node.pk.value))))
    else Plain(v)
  }

  /** Everything visited ranks at or above `bound`, so nothing below `bound` can have been visited. */
  lemma {:induction false} VisitedIrrelevant(g: Graph, hooks: Hooks, rank: Identity -> nat, o: nat,
                                             fields: Option<seq<string>>, bound: nat, visited: set<Identity>)
    requires Ranked(g, hooks, rank) && o in g.nodes && (fields.None? ==> g.nodes[o].pk.Some?)
    requires Below(g, hooks, rank, o, fields, bound)
    requires forall id :: id in visited + Mark(g.nodes[o]) ==> rank(id) >= bound
    requires Mark(g.nodes[o]) !! visited
    ensures Represent(g, hooks, o, fields, visited) == Naive(g, hooks, rank, o, fields, bound)
    decreases bound, 1
  {
    var seen := visited + Mark(g.nodes[o]);
    if fields.Some? {
      forall f | f in fields.value
        ensures Emit(g, hooks, Resolve(g, hooks, f, Object(o)), seen)
                == NaiveEmit(g, hooks, rank, Resolve(g, hooks, f, Object(o)), bound)
      {
        VisitedIrrelevantEmit(g, hooks, rank, Resolve(g, hooks, f, Object(o)), bound, seen);
      }
    }
  }

  lemma {:induction false} VisitedIrrelevantEmit(g: Graph, hooks: Hooks, rank: Identity -> nat, v: Value,
                                                 bound: nat, visited: set<Identity>)
    requires Ranked(g, hooks, rank)
    requires forall m :: LeadsTo(g, v, m) ==> rank((g.nodes[m].cls, g.nodes[m].pk.value)) < bound
    requires forall id :: id in visited ==> rank(id) >= bound
    ensures Emit(g, hooks, v, visited) == NaiveEmit(g, hooks, rank, v, bound)
    decreases bound, 0
  {
    forall w | (w == v || (v.Many? && w in v.values)) && IsModel(g, w)
      ensures LeadsTo(g, v, w.id)
      ensures EmitOne(g, hooks, w, visited) == NaiveOne(g, hooks, rank, w, bound)
    {
      assert LeadsTo(g, v, w.id);
      var node := g.nodes[w.id];
      VisitedIrrelevant(g, hooks, rank, w.id, ClassFields(g, node), rank((node.cls, node.pk.value)), visited);
    }
  }

  /** On a graph whose identities can be ranked, the output is the plain expansion. */
  lemma AcyclicIsNaive(g: Graph, hooks: Hooks, rank: Identity -> nat, o: nat, explicitFields: seq<string>, bound: nat)
    requires Ranked(g, hooks, rank) && o in g.nodes && ToRepresentation(g, hooks, o, explicitFields).Some?
    requires Below(g, hooks, rank, o, RootFields(g, o, explicitFields), bound)
    requires forall id :: id in Mark(g.nodes[o]) ==> rank(id) >= bound
    ensures ToRepresentation(g, hooks, o, explicitFields)
            == Some(Naive(g, hooks, rank, o, RootFields(g, o, explicitFields), bound))
  {
    VisitedIrrelevant(g, hooks, rank, o, RootFields(g, o, explicitFields), bound, {});
  }
}
