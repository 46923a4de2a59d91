/** Which fields a representation has, which hook yields a field, and how a path of fields is walked. */
module FieldPaths {
  import opened Wrappers
  import opened Representation

  /** A double underscore stands at `k`. */
  predicate SepAt(s: string, k: int) {
    0 <= k && k + 2 <= |s| && s[k] == '_' && s[k + 1] == '_'
  }

  lemma {:induction false} FirstSepIs(s: string, i: nat)
    requires i <= |s|
    ensures FirstSep(s, i).None? ==> forall k :: i <= k ==> !SepAt(s, k)
    ensures FirstSep(s, i).Some? ==>
      SepAt(s, FirstSep(s, i).value) && forall k :: i <= k < FirstSep(s, i).value ==> !SepAt(s, k)
    decreases |s| - i
  {
    if i + 1 < |s| && !(s[i] == '_' && s[i + 1] == '_') {
      FirstSepIs(s, i + 1);
    }
  }

  /** The serializer's hook comes first, then the model's, whatever else the field name could mean. */
  lemma HooksComeFirst(g: Graph, hooks: Hooks, field: string, o: nat)
    ensures "get_" + field + "_representation" in hooks ==>
      Resolve(g, hooks, field, Object(o)) == hooks["get_" + field + "_representation"](o)
    ensures "get_" + field + "_representation" !in hooks && o in g.nodes
            && "get_" + field + "_representation" in g.nodes[o].methods ==>
      Resolve(g, hooks, field, Object(o)) == g.nodes[o].methods["get_" + field + "_representation"]
  {
  }

  /** Without a hook of its own, a name without a double underscore is an attribute, or nothing. */
  lemma PlainNameIsAttribute(g: Graph, field: string, o: nat)
    requires o in g.nodes && "get_" + field + "_representation" !in g.nodes[o].methods && forall k :: !SepAt(field, k)
    ensures ResolvePath(g, field, Object(o)) == if field in g.nodes[o].attrs then g.nodes[o].attrs[field] else Null
  {
    FirstSepIs(field, 0);
  }

  /**
   Without a hook of its own, a path goes through its head, by the head's method if there is one and else by its
   attribute, and the rest is resolved there, where the serializer has no say.
   */
  lemma PathGoesThroughHead(g: Graph, field: string, head: string, tail: string, o: nat)
    requires o in g.nodes && "get_" + field + "_representation" !in g.nodes[o].methods
    requires field == head + "__" + tail && forall k :: 0 <= k < |head| ==> !SepAt(field, k)
    ensures var node := g.nodes[o];
            var next := if "get_" + head in node.methods then node.methods["get_" + head]
                        else if head in node.attrs then node.attrs[head] else Null;
            ResolvePath(g, field, Object(o)) == if next.Null? then Null else ResolvePath(g, tail, next)
  {
    FirstSepIs(field, 0);
    assert SepAt(field, |head|);
    assert field[..|head|] == head && field[|head| + 2..] == tail;
  }

  /** Only a repeated identity or the lack of fields leads to the id and label; else every field has its entry. */
  lemma ExpandedIff(g: Graph, hooks: Hooks, o: nat, fields: Option<seq<string>>, visited: set<Identity>)
    requires Keyed(g) && o in g.nodes && (fields.None? ==> g.nodes[o].pk.Some?)
    ensures var rep, node := Represent(g, hooks, o, fields, visited), g.nodes[o];
      && (rep.Fallback? <==> fields.None? || (node.pk.Some? && (node.cls, node.pk.value) in visited))
      && (rep.Fallback? ==> node.pk.Some? && rep.id == node.pk.value && rep.caption == node.caption)
      && (rep.Expanded? ==> forall f :: f in rep.entries <==> f in fields.value)
  {
  }

  /** The root's explicit fields replace those of its class. */
  lemma RootUsesExplicitFields(g: Graph, hooks: Hooks, o: nat, explicitFields: seq<string>)
    requires Keyed(g) && o in g.nodes
    ensures var rep := ToRepresentation(g, hooks, o, explicitFields);
      && (explicitFields != [] ==>
            rep.Some? && rep.value.Expanded? && forall f :: f in rep.value.entries <==> f in explicitFields)
      && (explicitFields == [] && g.nodes[o].cls in g.classFields ==>
            rep.Some? && rep.value.Expanded?
            && forall f :: f in rep.value.entries <==> f in g.classFields[g.nodes[o].cls])
      && (explicitFields == [] && g.nodes[o].cls !in g.classFields && g.nodes[o].pk.Some? ==>
            rep == Some(Fallback(g.nodes[o].pk.value, g.nodes[o].caption)))
  {
    var fields := RootFields(g, o, explicitFields);
    if fields.Some? || g.nodes[o].pk.Some? {
      ExpandedIff(g, hooks, o, fields, {});
    }
  }

  // ---- Paths over plain attributes ----

  /** A name that may stand between double underscores. */
  ghost predicate Segment(s: string) {
    s != "" && s[0] != '_' && s[|s| - 1] != '_' && forall k :: !SepAt(s, k)
  }

  function Join(segments: seq<string>): string
    requires segments != []
  {
    if |segments| == 1 then segments[0] else segments[0] + "__" + Join(segments[1..])
  }

  /** One attribute after another, as far as there are objects that have them. */
  function Walk(g: Graph, segments: seq<string>, v: Value): Value {
    if segments == [] then v
    else if v.Object? && v.id in g.nodes && segments[0] in g.nodes[v.id].attrs then
      Walk(g, segments[1..], g.nodes[v.id].attrs[segments[0]])
    else Null
  }

  lemma {:induction false} WalkFromNull(g: Graph, segments: seq<string>)
    ensures Walk(g, segments, Null).Null?
  {
  }

  lemma HeadOfJoin(segments: seq<string>)
    requires |segments| > 1 && forall i :: 0 <= i < |segments| ==> Segment(segments[i])
    ensures forall k :: 0 <= k < |segments[0]| ==> !SepAt(Join(segments), k)
  {
    var head, field := segments[0], Join(segments);
    assert field == head + "__" + Join(segments[1..]);
    forall k | 0 <= k < |head| ensures !SepAt(field, k) {
      assert field[k] == head[k];
      if k + 1 < |head| {
        assert field[k + 1] == head[k + 1] && !SepAt(head, k);
      }
    }
  }

  /** Where no instance has methods, a field name means the walk along its segments. */
  lemma {:induction false} PathIsWalk(g: Graph, segments: seq<string>, v: Value)
    requires segments != [] && forall i :: 0 <= i < |segments| ==> Segment(segments[i])
    requires forall o :: o in g.nodes ==> g.nodes[o].methods == map[]
    ensures ResolvePath(g, Join(segments), v) == Walk(g, segments, v)
  {
    if v.Object? && v.id in g.nodes {
      if |segments| == 1 {
        PlainNameIsAttribute(g, segments[0], v.id);
      } else {
        HeadOfJoin(segments);
        PathGoesThroughHead(g, Join(segments), segments[0], Join(segments[1..]), v.id);
        var attrs := g.nodes[v.id].attrs;
        var next := if segments[0] in attrs then attrs[segments[0]] else Null;
        PathIsWalk(g, segments[1..], next);
        WalkFromNull(g, segments[1..]);
      }
    }
  }
}
