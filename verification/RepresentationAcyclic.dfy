/** Where no identity leads back to itself, the visited set has no effect on the representation. */
module RepresentationAcyclic {
  import opened Wrappers
  import opened Representation

  function IdentityOf(g: Graph, o: nat): Identity
    requires o in g.nodes && g.nodes[o].pk.Some?
  {
    (g.nodes[o].cls, g.nodes[o].pk.value)
  }

  /** Expanding these fields of `o` meets the model `m`. */
  ghost predicate Steps(g: Graph, hooks: Hooks, o: nat, fields: Option<seq<string>>, m: nat) {
    fields.Some? && exists f :: f in fields.value && LeadsTo(g, Resolve(g, hooks, f, Object(o)), m)
  }

  /** Object `o` is expanded with these fields: those of its class, or the given ones for the root. */
  predicate Expands(g: Graph, root: nat, rootFields: Option<seq<string>>, o: nat, fields: Option<seq<string>>)
    requires o in g.nodes
  {
    (g.nodes[o].isModel && fields == ClassFields(g, g.nodes[o])) || (o == root && fields == rootFields)
  }

  ghost predicate Edge(g: Graph, hooks: Hooks, root: nat, rootFields: Option<seq<string>>, a: Identity, b: Identity)
    requires Keyed(g)
  {
    exists o: nat, fields, m: nat ::
      && o in g.nodes && g.nodes[o].pk.Some? && IdentityOf(g, o) == a
      && Expands(g, root, rootFields, o, fields) && Steps(g, hooks, o, fields, m) && IdentityOf(g, m) == b
  }

  ghost predicate Path(g: Graph, hooks: Hooks, root: nat, rootFields: Option<seq<string>>, a: Identity, b: Identity,
                       n: nat)
    requires Keyed(g)
    decreases n
  {
    if n == 0 then a == b
    else exists c :: Edge(g, hooks, root, rootFields, a, c) && Path(g, hooks, root, rootFields, c, b, n - 1)
  }

  /** Expansion from some identity leads to some other one in one step or more. */
  ghost predicate LeadsOn(g: Graph, hooks: Hooks, root: nat, rootFields: Option<seq<string>>, a: Identity, b: Identity)
    requires Keyed(g)
  {
    exists n: nat :: n > 0 && Path(g, hooks, root, rootFields, a, b, n)
  }

  ghost predicate Acyclic(g: Graph, hooks: Hooks, root: nat, rootFields: Option<seq<string>>)
    requires Keyed(g)
  {
    forall a :: !LeadsOn(g, hooks, root, rootFields, a, a)
  }

  ghost function Onward(g: Graph, hooks: Hooks, root: nat, rootFields: Option<seq<string>>, a: Identity): set<Identity>
    requires Keyed(g)
  {
    set b | b in Identities(g) && LeadsOn(g, hooks, root, rootFields, a, b)
  }

  /** Identities further down lead to fewer others. */
  lemma EdgeDescends(g: Graph, hooks: Hooks, root: nat, rootFields: Option<seq<string>>, a: Identity, b: Identity)
    requires Keyed(g) && Acyclic(g, hooks, root, rootFields) && Edge(g, hooks, root, rootFields, a, b)
    requires b in Identities(g)
    ensures |Onward(g, hooks, root, rootFields, b)| < |Onward(g, hooks, root, rootFields, a)|
  {
    var x, y := Onward(g, hooks, root, rootFields, a), Onward(g, hooks, root, rootFields, b);
    assert Path(g, hooks, root, rootFields, b, b, 0);
    assert Path(g, hooks, root, rootFields, a, b, 1);
    forall c | c in y ensures c in x {
      var n: nat :| n > 0 && Path(g, hooks, root, rootFields, b, c, n);
      assert Path(g, hooks, root, rootFields, a, c, n + 1);
    }
    assert b in x && b !in y;
    Smaller(y, x, b);
  }

  lemma Smaller<T>(y: set<T>, x: set<T>, b: T)
    requires y <= x && b in x && b !in y
    ensures |y| < |x|
  {
    assert x == y + (x - y);
    assert b in x - y;
  }

  lemma OnwardBounded(g: Graph, hooks: Hooks, root: nat, rootFields: Option<seq<string>>, a: Identity)
    requires Keyed(g)
    ensures |Onward(g, hooks, root, rootFields, a)| <= |Identities(g)|
  {
    var x := Onward(g, hooks, root, rootFields, a);
    assert Identities(g) == x + (Identities(g) - x);
  }

  ghost function Rank(g: Graph, hooks: Hooks, root: nat, rootFields: Option<seq<string>>): Identity -> nat
    requires Keyed(g)
  {
    (a: Identity) => if Keyed(g) then |Onward(g, hooks, root, rootFields, a)| else 0
  }

  lemma ExpansionDescends(g: Graph, hooks: Hooks, root: nat, rootFields: Option<seq<string>>, o: nat,
                          fields: Option<seq<string>>)
    requires Keyed(g) && Acyclic(g, hooks, root, rootFields)
    requires o in g.nodes && g.nodes[o].pk.Some? && Expands(g, root, rootFields, o, fields)
    ensures var rank := Rank(g, hooks, root, rootFields);
            Below(g, hooks, rank, o, fields, rank(IdentityOf(g, o)))
  {
    var rank := Rank(g, hooks, root, rootFields);
    if fields.Some? {
      forall f, m | f in fields.value && LeadsTo(g, Resolve(g, hooks, f, Object(o)), m)
        ensures rank((g.nodes[m].cls, g.nodes[m].pk.value)) < rank(IdentityOf(g, o))
      {
        assert Steps(g, hooks, o, fields, m);
        assert Edge(g, hooks, root, rootFields, IdentityOf(g, o), IdentityOf(g, m));
        EdgeDescends(g, hooks, root, rootFields, IdentityOf(g, o), IdentityOf(g, m));
      }
    }
  }

  /** On every acyclic graph the output is the plain expansion, which keeps no visited set. */
  lemma AcyclicExpandsPlainly(g: Graph, hooks: Hooks, o: nat, explicitFields: seq<string>)
    returns (rank: Identity -> nat, bound: nat)
    requires Keyed(g) && o in g.nodes && ToRepresentation(g, hooks, o, explicitFields).Some?
    requires Acyclic(g, hooks, o, RootFields(g, o, explicitFields))
    ensures Ranked(g, hooks, rank) && Below(g, hooks, rank, o, RootFields(g, o, explicitFields), bound)
    ensures ToRepresentation(g, hooks, o, explicitFields)
            == Some(Naive(g, hooks, rank, o, RootFields(g, o, explicitFields), bound))
  {
    var rootFields := RootFields(g, o, explicitFields);
    rank := Rank(g, hooks, o, rootFields);
    forall p | p in g.nodes && g.nodes[p].isModel
      ensures Below(g, hooks, rank, p, ClassFields(g, g.nodes[p]), rank(IdentityOf(g, p)))
    {
      ExpansionDescends(g, hooks, o, rootFields, p, ClassFields(g, g.nodes[p]));
    }
    if g.nodes[o].pk.Some? {
      bound := rank(IdentityOf(g, o));
      ExpansionDescends(g, hooks, o, rootFields, o, rootFields);
    } else {
      bound := |Identities(g)| + 1;
      forall a ensures rank(a) < bound {
        OnwardBounded(g, hooks, o, rootFields, a);
      }
    }
    AcyclicIsNaive(g, hooks, rank, o, explicitFields, bound);
  }
}
