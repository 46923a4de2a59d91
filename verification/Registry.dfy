/** The handler registry: event types to the functions registered for them. */
module Registry {
  import opened Wrappers

  /** A handler function: its qualified name and the code it stands for. */
  datatype Handler = Handler(qualname: string, code: nat)

  /** A dictionary of lists, with its keys in the order of their first use. */
  datatype Table = Table(types: seq<string>, lists: map<string, seq<Handler>>)

  ghost predicate Valid(t: Table) {
    && (forall i :: 0 <= i < |t.types| ==> t.types[i] in t.lists)
    && (forall k :: k in t.lists ==> k in t.types)
  }

  /** The handlers of an event type, in registration order. */
  function HandlersOf(t: Table, eventType: string): seq<Handler> {
    if eventType in t.lists then t.lists[eventType] else []
  }

  /** A lookup in the dictionary creates an absent entry. */
  function Touch(t: Table, eventType: string): Table {
    if eventType in t.lists then t else Table(t.types + [eventType], t.lists[eventType := []])
  }

  function Register(t: Table, eventType: string, h: Handler): Table {
    var u := Touch(t, eventType);
    u.(lists := u.lists[eventType := u.lists[eventType] + [h]])
  }

  function FindIn(hs: seq<Handler>, qualname: string): Option<Handler> {
    if hs == [] then None else if hs[0].qualname == qualname then Some(hs[0]) else FindIn(hs[1..], qualname)
  }

  /** The first handler of that name, over the types in order. */
  function FindFrom(t: Table, i: nat, qualname: string): Option<Handler>
    requires i <= |t.types|
    decreases |t.types| - i
  {
    if i == |t.types| then None
    else
      var found := FindIn(HandlersOf(t, t.types[i]), qualname);
      if found.Some? then found else FindFrom(t, i + 1, qualname)
  }

  function Resolve(t: Table, qualname: string): Option<Handler> {
    FindFrom(t, 0, qualname)
  }

  ghost predicate Registered(t: Table, eventType: string, h: Handler) {
    h in HandlersOf(t, eventType)
  }

  /** No two registrations share a qualified name. */
  ghost predicate DistinctNames(t: Table) {
    forall a, i, b, j :: 0 <= i < |HandlersOf(t, a)| && 0 <= j < |HandlersOf(t, b)|
                         && HandlersOf(t, a)[i].qualname == HandlersOf(t, b)[j].qualname
      ==> a == b && i == j
  }

  class Handlers {
    var table: Table

    constructor ()
      ensures table == Table([], map[])
    {
      table := Table([], map[]);
    }

    method EventHandler(eventType: string, h: Handler)
      modifies this
      ensures table == Register(old(table), eventType, h)
    {
      table := Touch(table, eventType);
      table := table.(lists := table.lists[eventType := table.lists[eventType] + [h]]);
    }

    method GetHandlers(eventType: string) returns (hs: seq<Handler>)
      modifies this
      ensures hs == HandlersOf(old(table), eventType) && table == Touch(old(table), eventType)
    {
      table := Touch(table, eventType);
      hs := table.lists[eventType];
    }

    method ResolveHandler(qualname: string) returns (found: Option<Handler>)
      requires Valid(table)
      ensures found == Resolve(table, qualname)
    {
      var i := 0;
      while i < |table.types|
        invariant 0 <= i <= |table.types| && Resolve(table, qualname) == FindFrom(table, i, qualname)
      {
        var hs := table.lists[table.types[i]];
        var j := 0;
        while j < |hs|
          invariant 0 <= j <= |hs| && FindIn(hs, qualname) == FindIn(hs[j..], qualname)
        {
          if hs[j].qualname == qualname {
            return Some(hs[j]);
          }
          j := j + 1;
        }
        i := i + 1;
      }
      return None;
    }
  }

  /** A registration is seen at the end of its own list only; a lookup is seen nowhere. */
  lemma RegisterAppends(t: Table, eventType: string, h: Handler, other: string)
    requires Valid(t)
    ensures Valid(Register(t, eventType, h)) && Valid(Touch(t, eventType))
    ensures HandlersOf(Register(t, eventType, h), other)
            == HandlersOf(t, other) + (if other == eventType then [h] else [])
    ensures HandlersOf(Touch(t, eventType), other) == HandlersOf(t, other)
  {
  }

  lemma {:induction false} FindInIff(hs: seq<Handler>, qualname: string)
    ensures FindIn(hs, qualname).None? ==> forall h :: h in hs ==> h.qualname != qualname
    ensures var found := FindIn(hs, qualname); found.Some? ==> found.value in hs && found.value.qualname == qualname
  {
    if hs != [] {
      FindInIff(hs[1..], qualname);
    }
  }

  lemma {:induction false} FindFromIff(t: Table, i: nat, qualname: string)
    requires i <= |t.types|
    ensures var found := FindFrom(t, i, qualname);
            && (found.None? ==>
                  forall k, h :: i <= k < |t.types| && Registered(t, t.types[k], h) ==> h.qualname != qualname)
            && (found.Some? ==> found.value.qualname == qualname
                                && exists k :: i <= k < |t.types| && Registered(t, t.types[k], found.value))
    decreases |t.types| - i
  {
    if i < |t.types| {
      FindInIff(HandlersOf(t, t.types[i]), qualname);
      FindFromIff(t, i + 1, qualname);
      if FindIn(HandlersOf(t, t.types[i]), qualname).Some? {
        assert Registered(t, t.types[i], FindFrom(t, i, qualname).value);
      }
    }
  }

  /** The search finds a handler exactly when one of that name is registered. */
  lemma ResolveIff(t: Table, qualname: string)
    requires Valid(t)
    ensures Resolve(t, qualname).Some? <==> exists a, h :: Registered(t, a, h) && h.qualname == qualname
  {
    FindFromIff(t, 0, qualname);
    if Resolve(t, qualname).None? {
      forall a, h | Registered(t, a, h) ensures h.qualname != qualname {
        var k :| 0 <= k < |t.types| && t.types[k] == a;
      }
    } else {
      var k :| 0 <= k < |t.types| && Registered(t, t.types[k], Resolve(t, qualname).value);
    }
  }

  /** With distinct names, a name sent by the consumer resolves to the function it was taken from. */
  lemma ResolveFindsRegistered(t: Table, eventType: string, i: nat)
    requires Valid(t) && DistinctNames(t) && i < |HandlersOf(t, eventType)|
    ensures Resolve(t, HandlersOf(t, eventType)[i].qualname) == Some(HandlersOf(t, eventType)[i])
  {
    var h := HandlersOf(t, eventType)[i];
    assert Registered(t, eventType, h);
    ResolveIff(t, h.qualname);
    FindFromIff(t, 0, h.qualname);
    var found := Resolve(t, h.qualname).value;
    var k :| 0 <= k < |t.types| && Registered(t, t.types[k], found);
    var j :| 0 <= j < |HandlersOf(t, t.types[k])| && HandlersOf(t, t.types[k])[j] == found;
    assert t.types[k] == eventType && j == i;
  }
}
